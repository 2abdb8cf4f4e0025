/** The seeding scripts merge_admin_user.js and insert_user.js. Each holds
    one hard-coded user; here those details are the parameter `d`. Both
    scripts catch every error and only log it, so a failed statement or
    connection (`fault`) leaves the tables as they were. */
module Seeding {
  import opened Wrappers
  import opened Store

  /** The `adminDetails` / `userDetails` object of a script. */
  datatype SeedUser = SeedUser(firstName: string, lastName: string, email: string, password: string,
                               phone: string, role: string)

  /** `${firstName} ${lastName}`. */
  function FullName(d: SeedUser): string {
    d.firstName + " " + d.lastName
  }

  /** The row the INSERT of either script adds. */
  function SeedRow(t: Tables, h: Hasher, d: SeedUser): User {
    User(t.nextId, FullName(d), d.email, h.hash(d.password), d.phone, d.role, "")
  }

  /** Sets the role column of a row. */
  function SetRole(role: string): User -> User {
    (u: User) => u.(role := role)
  }

  // ----------------------------------------------------- merge_admin_user.js

  /** `mergeAdminUser()`. */
  function Merge(t: Tables, h: Hasher, fault: bool, d: SeedUser): (t': Tables)
    requires t.Valid()
    ensures t'.Valid()
  {
    if fault then t
    else match ByEmail(t.users, d.email)
      case Some(u) =>
        if u.role == "Admin" then t
        else (match Update(t, (v: User) => v.email == d.email, SetRole(d.role))
              case Some(t1) => t1
              case None => t)
      case None =>
        match Insert(t, FullName(d), d.email, h.hash(d.password), d.phone, d.role)
        case Some(r) => r.0
        case None => t
  }

  /** An existing email is never inserted again: a user already 'Admin' is
      left alone, and any other user gets only its role changed. */
  lemma MergeExisting(t: Tables, h: Hasher, d: SeedUser)
    requires t.Valid() && HasEmail(t.users, d.email) && SchemaRole(d.role)
    ensures var t' := Merge(t, h, false, d);
      var k := EmailIndex(t.users, d.email);
      t'.nextId == t.nextId && t'.guides == t.guides
      && (t.users[k].role == "Admin" ==> t' == t)
      && (t.users[k].role != "Admin" ==> t'.users == t.users[k := t.users[k].(role := d.role)])
  {
    var k := EmailIndex(t.users, d.email);
    EmailNamesOneRow(t.users, t.nextId, t.users[k]);
    var u := t.users[k];
    if u.role != "Admin" {
      var p := (v: User) => v.email == d.email;
      UpdateKeepingKeysSucceeds(t, p, SetRole(d.role));
      var t' := Update(t, p, SetRole(d.role)).value;
      var want := t.users[k := u.(role := d.role)];
      forall j | 0 <= j < |t.users| ensures t'.users[j] == want[j] {
        if j != k { assert t.users[j].email != d.email; }
      }
      assert t'.users == want;
    }
  }

  /** The position of a stored email. */
  function EmailIndex(us: seq<User>, email: string): (k: nat)
    requires HasEmail(us, email)
    ensures k < |us| && us[k].email == email
  {
    if us[0].email == email then 0
    else
      assert HasEmail(us[1..], email) by {
        var j :| 0 <= j < |us| && us[j].email == email;
        assert us[1..][j - 1] == us[j];
      }
      1 + EmailIndex(us[1..], email)
  }

  /** An absent email gets exactly one new row: the joined name, the hash
      of the password, and the script's role. */
  lemma MergeAbsent(t: Tables, h: Hasher, d: SeedUser)
    requires t.Valid() && !HasEmail(t.users, d.email) && SchemaRole(d.role)
    ensures Merge(t, h, false, d) == t.(users := t.users + [SeedRow(t, h, d)], nextId := t.nextId + 1)
  {
    ByEmailIffStored(t.users, d.email);
  }

  /** A second run changes nothing: after the first, the email is stored with
      the role 'Admin'. */
  lemma MergeIdempotent(t: Tables, h: Hasher, fault: bool, d: SeedUser)
    requires t.Valid() && d.role == "Admin"
    ensures Merge(Merge(t, h, false, d), h, fault, d) == Merge(t, h, false, d)
  {
    var t1 := Merge(t, h, false, d);
    if HasEmail(t.users, d.email) {
      MergeExisting(t, h, d);
      var k := EmailIndex(t.users, d.email);
      assert t1.users[k].email == d.email && t1.users[k].role == "Admin";
      EmailNamesOneRow(t1.users, t1.nextId, t1.users[k]);
    } else {
      MergeAbsent(t, h, d);
      var k := |t.users|;
      assert t1.users[k] == SeedRow(t, h, d);
      EmailNamesOneRow(t1.users, t1.nextId, t1.users[k]);
    }
  }

  method MergeAdminUser(db: Database, h: Hasher, fault: bool, d: SeedUser)
    requires db.Valid()
    modifies db
    ensures db.Valid() && db.State() == Merge(old(db.State()), h, fault, d)
  {
    if fault {
      return;
    }
    var existing := db.Select((v: User) => v.email == d.email);
    if existing.Some? {
      if existing.value.role != "Admin" {
        var _ := db.RunUpdate((v: User) => v.email == d.email, SetRole(d.role));
      }
      return;
    }
    var _ := db.RunInsert(FullName(d), d.email, h.hash(d.password), d.phone, d.role);
  }

  // ---------------------------------------------------------- insert_user.js

  /** `insertUser()`. */
  function InsertUser(t: Tables, h: Hasher, fault: bool, d: SeedUser): (t': Tables)
    requires t.Valid()
    ensures t'.Valid()
  {
    if fault || ByEmail(t.users, d.email).Some? then t
    else match Insert(t, FullName(d), d.email, h.hash(d.password), d.phone, d.role)
      case Some(r) => r.0
      case None => t
  }

  /** A stored email leaves the tables unchanged; otherwise exactly one row
      is added, and what it stores is the hash of the password. */
  lemma InsertUserEffect(t: Tables, h: Hasher, d: SeedUser)
    requires t.Valid() && SchemaRole(d.role)
    ensures HasEmail(t.users, d.email) ==> InsertUser(t, h, false, d) == t
    ensures !HasEmail(t.users, d.email) ==>
      InsertUser(t, h, false, d) == t.(users := t.users + [SeedRow(t, h, d)], nextId := t.nextId + 1)
      && SeedRow(t, h, d).password == h.hash(d.password)
  {
    ByEmailIffStored(t.users, d.email);
  }

  /** Running the script twice is running it once. */
  lemma InsertUserIdempotent(t: Tables, h: Hasher, fault: bool, d: SeedUser)
    requires t.Valid()
    ensures InsertUser(InsertUser(t, h, false, d), h, fault, d) == InsertUser(t, h, false, d)
  {
    var t1 := InsertUser(t, h, false, d);
    ByEmailIffStored(t.users, d.email);
    if t1 != t {
      var k := |t.users|;
      assert t1.users[k].email == d.email;
      ByEmailIffStored(t1.users, d.email);
    }
  }

  method InsertUserScript(db: Database, h: Hasher, fault: bool, d: SeedUser)
    requires db.Valid()
    modifies db
    ensures db.Valid() && db.State() == InsertUser(old(db.State()), h, fault, d)
  {
    if fault {
      return;
    }
    var existing := db.Select((v: User) => v.email == d.email);
    if existing.Some? {
      return;
    }
    var _ := db.RunInsert(FullName(d), d.email, h.hash(d.password), d.phone, d.role);
  }
}
