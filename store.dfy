/** The `users` table (setup_database.js:46-57) and the `guides` table, the
    SQL statements the backends run against them, the response and JSON
    values handlers answer with, and the password hasher they call. */
module Store {
  import opened Wrappers
  import opened Text
  import opened Numerals

  // ------------------------------------------------------------------ rows

  /** One row of `users`. `status` is the column the guide-approval route
      writes. Time stamps are not modelled. */
  datatype User = User(id: nat, fullName: string, email: string, password: string,
                       phone: string, role: string, status: string)

  /** `role ENUM('Admin', 'Guide', 'Tourist')`. */
  predicate SchemaRole(r: string) {
    r == "Admin" || r == "Guide" || r == "Tourist"
  }

  /** The table's own constraints: positive AUTO_INCREMENT primary keys below
      the next key, UNIQUE email, and a role inside the ENUM. */
  predicate Schema(us: seq<User>, nextId: nat) {
    0 < nextId
    && (forall i, j :: 0 <= i < j < |us| ==> us[i].id != us[j].id && us[i].email != us[j].email)
    && (forall i :: 0 <= i < |us| ==> 0 < us[i].id < nextId && SchemaRole(us[i].role))
  }

  /** The whole database as a value: `users`, the `user_id` column of
      `guides`, and the next AUTO_INCREMENT id. */
  datatype Tables = Tables(users: seq<User>, guides: seq<nat>, nextId: nat)
  {
    predicate Valid() {
      Schema(users, nextId)
    }
  }

  // ------------------------------------------------------------- selects

  /** The first row satisfying `p`: what `rows[0]` of a `SELECT ... WHERE p`
      gives, or `None` for `rows.length === 0`. */
  function Find(us: seq<User>, p: User -> bool): (r: Option<User>)
    ensures r.Some? ==> r.value in us && p(r.value)
    ensures r.None? <==> forall k :: 0 <= k < |us| ==> !p(us[k])
  {
    if us == [] then None else if p(us[0]) then Some(us[0]) else Find(us[1..], p)
  }

  /** Under the UNIQUE constraint the row with a given email is the only one. */
  lemma EmailNamesOneRow(us: seq<User>, nextId: nat, u: User)
    requires Schema(us, nextId) && u in us
    ensures Find(us, (v: User) => v.email == u.email) == Some(u)
  {
    var r := Find(us, (v: User) => v.email == u.email);
    var i :| 0 <= i < |us| && us[i] == u;
    assert r.Some?;
    var j :| 0 <= j < |us| && us[j] == r.value;
    assert i == j;
  }

  /** Likewise for the primary key. */
  lemma IdNamesOneRow(us: seq<User>, nextId: nat, u: User)
    requires Schema(us, nextId) && u in us
    ensures Find(us, (v: User) => v.id == u.id) == Some(u)
  {
    var r := Find(us, (v: User) => v.id == u.id);
    var i :| 0 <= i < |us| && us[i] == u;
    assert r.Some?;
    var j :| 0 <= j < |us| && us[j] == r.value;
    assert i == j;
  }

  function ByEmail(us: seq<User>, email: string): Option<User> {
    Find(us, (v: User) => v.email == email)
  }

  function ById(us: seq<User>, id: nat): Option<User> {
    Find(us, (v: User) => v.id == id)
  }

  predicate HasEmail(us: seq<User>, email: string) {
    exists k :: 0 <= k < |us| && us[k].email == email
  }

  // ------------------------------------------------------------- updates

  /** `UPDATE users SET f(row) WHERE p(row)`, before the constraints are checked. */
  function MapWhere(us: seq<User>, p: User -> bool, f: User -> User): (r: seq<User>)
    ensures |r| == |us|
  {
    seq(|us|, k requires 0 <= k < |us| => if p(us[k]) then f(us[k]) else us[k])
  }

  /** An UPDATE: the rows satisfying `p` are rewritten by `f`; if that breaks
      a constraint (a duplicate email), the statement fails and nothing changes. */
  function Update(t: Tables, p: User -> bool, f: User -> User): (r: Option<Tables>)
    ensures r.Some? ==> r.value.Valid() && r.value.guides == t.guides && r.value.nextId == t.nextId
    ensures r.Some? ==> |r.value.users| == |t.users|
    ensures r.Some? ==> forall k :: 0 <= k < |t.users| && !p(t.users[k]) ==> r.value.users[k] == t.users[k]
    ensures r.Some? ==> forall k :: 0 <= k < |t.users| && p(t.users[k]) ==> r.value.users[k] == f(t.users[k])
    ensures r.None? <==> !Schema(MapWhere(t.users, p, f), t.nextId)
  {
    var us := MapWhere(t.users, p, f);
    if Schema(us, t.nextId) then Some(t.(users := us)) else None
  }

  /** An UPDATE that leaves the key and the email of every matched row alone
      cannot break a constraint as long as it keeps the role inside the ENUM. */
  lemma UpdateKeepingKeysSucceeds(t: Tables, p: User -> bool, f: User -> User)
    requires t.Valid()
    requires forall k :: 0 <= k < |t.users| && p(t.users[k]) ==>
      f(t.users[k]).id == t.users[k].id && f(t.users[k]).email == t.users[k].email && SchemaRole(f(t.users[k]).role)
    ensures Update(t, p, f).Some?
  {
    var us := MapWhere(t.users, p, f);
    forall i | 0 <= i < |us|
      ensures us[i].id == t.users[i].id && us[i].email == t.users[i].email && SchemaRole(us[i].role)
    {
    }
  }

  /** An UPDATE whose condition picks out the row at `k` by its key rewrites
      that one row; it succeeds when the id, the email and a valid role stay. */
  lemma UpdateOneRow(t: Tables, p: User -> bool, f: User -> User, k: nat)
    requires t.Valid() && k < |t.users|
    requires forall j :: 0 <= j < |t.users| ==> (p(t.users[j]) <==> t.users[j].id == t.users[k].id)
    ensures MapWhere(t.users, p, f) == t.users[k := f(t.users[k])]
    ensures f(t.users[k]).id == t.users[k].id && f(t.users[k]).email == t.users[k].email
              && SchemaRole(f(t.users[k]).role)
            ==> Update(t, p, f) == Some(t.(users := t.users[k := f(t.users[k])]))
  {
    var us := MapWhere(t.users, p, f);
    var want := t.users[k := f(t.users[k])];
    forall j | 0 <= j < |t.users| ensures us[j] == want[j] {
      if j != k { assert t.users[j].id != t.users[k].id; }
    }
    assert us == want;
    var u' := f(t.users[k]);
    if u'.id == t.users[k].id && u'.email == t.users[k].email && SchemaRole(u'.role) {
      UpdateKeepingKeysSucceeds(t, p, f);
    }
  }

  /** The same for a condition that picks the row at `k` by its email. */
  lemma UpdateOneRowByEmail(t: Tables, p: User -> bool, f: User -> User, k: nat)
    requires t.Valid() && k < |t.users|
    requires forall j :: 0 <= j < |t.users| ==> (p(t.users[j]) <==> t.users[j].email == t.users[k].email)
    ensures MapWhere(t.users, p, f) == t.users[k := f(t.users[k])]
    ensures f(t.users[k]).id == t.users[k].id && f(t.users[k]).email == t.users[k].email
              && SchemaRole(f(t.users[k]).role)
            ==> Update(t, p, f) == Some(t.(users := t.users[k := f(t.users[k])]))
  {
    var us := MapWhere(t.users, p, f);
    var want := t.users[k := f(t.users[k])];
    forall j | 0 <= j < |t.users| ensures us[j] == want[j] {
      if j != k { assert t.users[j].email != t.users[k].email; }
    }
    assert us == want;
    var u' := f(t.users[k]);
    if u'.id == t.users[k].id && u'.email == t.users[k].email && SchemaRole(u'.role) {
      UpdateKeepingKeysSucceeds(t, p, f);
    }
  }

  /** A row-update function replacing only the password. */
  function SetPassword(hash: string): User -> User {
    (u: User) => u.(password := hash)
  }

  // ------------------------------------------------------------- inserts

  /** `INSERT INTO users (full_name, email, password, phone_number, role)`:
      fails on a duplicate email or a role outside the ENUM; otherwise the row is
      appended with the next AUTO_INCREMENT id, which is returned. */
  function Insert(t: Tables, fullName: string, email: string, password: string,
                  phone: string, role: string): (r: Option<(Tables, nat)>)
    requires t.Valid()
    ensures r.Some? <==> !HasEmail(t.users, email) && SchemaRole(role)
    ensures r.Some? ==> var (t', id) := r.value;
      t'.Valid() && t'.guides == t.guides && id == t.nextId && t'.nextId == t.nextId + 1
      && t'.users == t.users + [User(id, fullName, email, password, phone, role, "")]
  {
    if HasEmail(t.users, email) || !SchemaRole(role) then None
    else
      var u := User(t.nextId, fullName, email, password, phone, role, "");
      Some((t.(users := t.users + [u], nextId := t.nextId + 1), t.nextId))
  }

  /** `ByEmail` finds a row exactly when the email is stored. */
  lemma ByEmailIffStored(us: seq<User>, email: string)
    ensures ByEmail(us, email).Some? <==> HasEmail(us, email)
  {
  }

  // ------------------------------------------------------------ request ids

  /** How MySQL reads an id sent as text when it compares it with the INT
      `id` column: as a number, so the text names the row whose id its
      numeral denotes exactly. The numeral may carry a sign, a fraction and an
      exponent (`+5`, `05`, `5.0` and `50e-1` all name row 5, `5.5` names
      none). Text with anything before or after the numeral is read here as
      naming no row. */
  function SqlId(s: string): (r: Option<nat>)
    ensures r.Some? ==> Scan(s).Some? && Scan(s).value.1 == [] && Denotes(Scan(s).value.0, r.value)
  {
    match Scan(s)
    case Some((n, rest)) =>
      WholeValueDenotes(n);
      if rest == [] && WholeValue(n).Some? && WholeValue(n).value >= 0 then Some(WholeValue(n).value as nat)
      else None
    case None => None
  }

  /** Every whole text numeral that denotes a possible id names it. */
  lemma SqlIdReadsWholeNumerals(s: string, n: Numeral, v: nat)
    requires Scan(s) == Some((n, []))
    requires Denotes(n, v)
    ensures SqlId(s) == Some(v)
  {
    if WholeValue(n).None? {
      NoWholeValue(n, v);
    } else {
      WholeValueDenotes(n);
      DenotesUnique(n, v, WholeValue(n).value);
    }
  }

  /** A string of decimal digits names the row of its value. */
  lemma SqlIdOfDigits(s: string)
    requires s != [] && AllDigits(s)
    ensures SqlId(s) == Some(DecimalValue(s))
  {
    ScanDigits(s, []);
    assert s + [] == s;
    DenotesDigits(s);
  }

  lemma SqlIdOfDecimalText(n: nat)
    ensures SqlId(DecimalText(n)) == Some(n)
  {
    SqlIdOfDigits(DecimalText(n));
    DecimalValueOfText(n);
  }

  /** A plus sign changes nothing; a minus sign names no row, except for 0. */
  lemma SqlIdOfSignedText(n: nat)
    ensures SqlId("+" + DecimalText(n)) == Some(n)
    ensures SqlId("-" + DecimalText(n)) == if n == 0 then Some(0) else None
  {
    var d := DecimalText(n);
    DecimalValueOfText(n);
    ScanSignedText('+', n, []);
    ScanSignedText('-', n, []);
    assert "+" + d == ['+'] + d + [] && "-" + d == ['-'] + d + [];
    DenotesDigits(d);
    SqlIdReadsWholeNumerals("+" + d, Numeral(false, d, 0), n);
    var m := Numeral(true, d, 0);
    assert Denotes(m, -(n as int));
    if n == 0 {
      SqlIdReadsWholeNumerals("-" + d, m, 0);
    } else if SqlId("-" + d).Some? {
      DenotesUnique(m, -(n as int), SqlId("-" + d).value);
    }
  }

  /** A fraction names the row exactly when its digits are all zeros. */
  lemma SqlIdOfFraction(n: nat, f: string)
    requires AllDigits(f)
    ensures SqlId(DecimalText(n) + ("." + f)) == if AllZeros(f) then Some(n) else None
  {
    var d := DecimalText(n);
    var s := d + ("." + f);
    ScanFraction(n, f, []);
    assert f + [] == f;
    var m := Numeral(false, d + f, -|f|);
    var r := Scan(s);
    assert r == Some((m, []));
    DecimalValueOfText(n);
    FractionValue(d, f);
    if AllZeros(f) {
      WholeValueDenotes(m);
      SqlIdReadsWholeNumerals(s, m, n);
    }
  }

  /** An exponent scales the number up. */
  lemma SqlIdOfExponent(n: nat, k: nat)
    ensures SqlId(DecimalText(n) + ("e" + DecimalText(k))) == Some(n * Pow10(k))
  {
    var d := DecimalText(n);
    var s := d + ("e" + DecimalText(k));
    ScanExponent(n, k, []);
    assert DecimalText(k) + [] == DecimalText(k);
    var m := Numeral(false, d, k);
    var r := Scan(s);
    assert r == Some((m, []));
    DecimalValueOfText(n);
    ExponentValue(d, k);
    SqlIdReadsWholeNumerals(s, m, n * Pow10(k));
  }

  // ------------------------------------------------------------- hashing

  /** `bcrypt.hash` / `password_hash` and `bcrypt.compare` / `password_verify`,
      left uninterpreted. */
  datatype Hasher = Hasher(hash: string -> string, verify: (string, string) -> bool)

  /** The one property relied on: a password verifies against its own hash. */
  ghost predicate Sound(h: Hasher) {
    forall p :: h.verify(p, h.hash(p))
  }

  // ----------------------------------------------------------- responses

  datatype Json = JStr(s: string) | JInt(n: int) | JBool(b: bool) | JObj(fields: map<string, Json>) | JList(items: seq<Json>)

  /** An HTTP status and a JSON object body. */
  datatype Response = Response(status: int, body: map<string, Json>)

  /** What a PHP script sends: the JSON it echoes, or, when an uncaught
      error stops it, PHP's printed message for `error` under the status in
      force at that moment. */
  datatype Answer = Sent(response: Response) | Crashed(status: int, error: string)

  /** `{ error: msg }` with the given status. */
  function Fail(status: int, msg: string): (r: Response)
    ensures r.status == status && r.body.Keys == {"error"} && r.body["error"] == JStr(msg)
  {
    Response(status, map["error" := JStr(msg)])
  }

  /** `{ message: msg }` with the given status. */
  function Done(status: int, msg: string): (r: Response)
    ensures r.status == status && r.body.Keys == {"message"} && r.body["message"] == JStr(msg)
  {
    Response(status, map["message" := JStr(msg)])
  }

  function ColumnValue(u: User, c: string): Json {
    if c == "id" then JInt(u.id)
    else if c == "full_name" then JStr(u.fullName)
    else if c == "email" then JStr(u.email)
    else if c == "password" then JStr(u.password)
    else if c == "phone_number" then JStr(u.phone)
    else if c == "role" then JStr(u.role)
    else if c == "status" then JStr(u.status)
    else JStr("")
  }

  /** The selected columns of a row as a JSON object. */
  function Columns(u: User, cols: set<string>): (o: map<string, Json>)
    ensures o.Keys == cols
  {
    map c | c in cols :: ColumnValue(u, c)
  }

  /** The selected columns of each row, in row order: a JSON array of rows. */
  function ObjectList(us: seq<User>, cols: set<string>): (r: seq<Json>)
    ensures |r| == |us|
    ensures forall k :: 0 <= k < |us| ==> r[k] == JObj(Columns(us[k], cols))
  {
    if us == [] then [] else [JObj(Columns(us[0], cols))] + ObjectList(us[1..], cols)
  }

  /** A column as pdo_mysql fetches it under PHP 8.0 with emulated prepares
      (neither ATTR_EMULATE_PREPARES nor ATTR_STRINGIFY_FETCHES is set): every
      value arrives as a string, so the integer id is its decimal text. */
  function FetchedValue(u: User, c: string): Json {
    if c == "id" then JStr(DecimalText(u.id)) else ColumnValue(u, c)
  }

  /** The selected columns of a row as `PDO::FETCH_ASSOC` returns them. */
  function Fetched(u: User, cols: set<string>): (o: map<string, Json>)
    ensures o.Keys == cols
  {
    map c | c in cols :: FetchedValue(u, c)
  }

  /** `fetchAll(PDO::FETCH_ASSOC)`: the fetched columns of each row, in row order. */
  function FetchedList(us: seq<User>, cols: set<string>): (r: seq<Json>)
    ensures |r| == |us|
    ensures forall k :: 0 <= k < |us| ==> r[k] == JObj(Fetched(us[k], cols))
  {
    if us == [] then [] else [JObj(Fetched(us[0], cols))] + FetchedList(us[1..], cols)
  }

  /** A PDO-fetched row differs from the native one of mysql2 and mysqli
      only in its id: a JSON number there, here a string that names the same
      row again when it is sent back as an id. */
  lemma FetchedDiffersOnlyInId(u: User, cols: set<string>)
    ensures forall c :: c in cols && c != "id" ==> Fetched(u, cols)[c] == Columns(u, cols)[c]
    ensures "id" in cols ==>
      Columns(u, cols)["id"] == JInt(u.id)
      && Fetched(u, cols)["id"].JStr? && SqlId(Fetched(u, cols)["id"].s) == Some(u.id)
  {
    SqlIdOfDecimalText(u.id);
  }

  /** `SELECT *` without the password column: every stored column but `password`. */
  const WithoutPassword: set<string> := {"id", "full_name", "email", "phone_number", "role", "status"}

  /** The command a handler answers: the HTTP method. */
  datatype Method = Get | Post | Put | Patch | Delete | Options

  /** The answer and the database after a request. */
  datatype Outcome = Outcome(response: Response, db: Tables)

  /** JavaScript truthiness of an optional string field: present and non-empty. */
  predicate Truthy(o: Option<string>) {
    o.Some? && o.value != ""
  }

  // ------------------------------------------------------------ database

  /** The database the handlers share. Every statement is one method; each is
      proved to do what the corresponding function on `Tables` says. */
  class Database {
    var users: seq<User>
    var guides: seq<nat>
    var nextId: nat

    function State(): Tables
      reads this
    {
      Tables(users, guides, nextId)
    }

    predicate Valid()
      reads this
    {
      State().Valid()
    }

    /** The empty tables `setup_database.js` creates. */
    constructor ()
      ensures Valid() && State() == Tables([], [], 1)
    {
      users, guides, nextId := [], [], 1;
    }

    /** `SELECT ... FROM users WHERE p`, first row. */
    method Select(p: User -> bool) returns (r: Option<User>)
      ensures r == Find(users, p)
    {
      var k := 0;
      while k < |users|
        invariant 0 <= k <= |users|
        invariant Find(users, p) == Find(users[k..], p)
      {
        assert users[k..][1..] == users[k + 1..];
        if p(users[k]) {
          return Some(users[k]);
        }
        k := k + 1;
      }
      return None;
    }

    /** `UPDATE users SET ... WHERE p`; `ok` is false when a constraint failed. */
    method RunUpdate(p: User -> bool, f: User -> User) returns (ok: bool)
      requires Valid()
      modifies this
      ensures Valid()
      ensures ok == Update(old(State()), p, f).Some?
      ensures State() == if ok then Update(old(State()), p, f).value else old(State())
    {
      var us: seq<User> := [];
      var k := 0;
      while k < |users|
        invariant 0 <= k <= |users|
        invariant us == MapWhere(users, p, f)[..k]
      {
        us := us + [if p(users[k]) then f(users[k]) else users[k]];
        k := k + 1;
      }
      assert us == MapWhere(users, p, f);
      ok := Schema(us, nextId);
      if ok {
        users := us;
      }
    }

    /** `INSERT INTO users ...`; the new id, or `None` when a constraint failed. */
    method RunInsert(fullName: string, email: string, password: string, phone: string, role: string)
      returns (id: Option<nat>)
      requires Valid()
      modifies this
      ensures Valid()
      ensures var r := Insert(old(State()), fullName, email, password, phone, role);
        id == (if r.Some? then Some(r.value.1) else None)
        && State() == (if r.Some? then r.value.0 else old(State()))
    {
      var existing := Select((v: User) => v.email == email);
      ByEmailIffStored(users, email);
      if existing.Some? || !SchemaRole(role) {
        return None;
      }
      users := users + [User(nextId, fullName, email, password, phone, role, "")];
      id := Some(nextId);
      nextId := nextId + 1;
    }

    /** `SELECT id FROM guides WHERE user_id = ?` is non-empty. */
    method HasGuide(userId: nat) returns (b: bool)
      ensures b <==> userId in guides
    {
      var k := 0;
      while k < |guides|
        invariant 0 <= k <= |guides|
        invariant forall j :: 0 <= j < k ==> guides[j] != userId
      {
        if guides[k] == userId {
          return true;
        }
        k := k + 1;
      }
      return false;
    }

    /** `INSERT INTO guides (user_id) VALUES (?)`. */
    method InsertGuide(userId: nat)
      requires Valid()
      modifies this
      ensures Valid()
      ensures State() == old(State()).(guides := old(guides) + [userId])
    {
      guides := guides + [userId];
    }
  }
}
