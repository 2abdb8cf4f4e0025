/** The Express backend of project/server.js (and of project/src/server.js,
    which repeats its signup and signin). Its profile update and password
    change find the user by the submitted email, not by an id. Signup is the
    same chain as the root server's and is reused from there. */
module ProjectServer {
  import opened Wrappers
  import opened Text
  import opened Validation
  import opened Store
  import RootServer

  /** The duplicate check `email = ? AND email != ?` with the same value twice. */
  function TakenByOther(email: string): User -> bool {
    (v: User) => v.email == email && v.email != email
  }

  /** The row selector `WHERE email = ?`. */
  function EmailIs(email: string): User -> bool {
    (v: User) => v.email == email
  }

  /** PUT /api/profile/update. */
  function ProfileUpdate(t: Tables, fault: bool, fullName: Option<string>, email: Option<string>,
                         phone: Option<string>): (o: Outcome)
    requires t.Valid()
    ensures o.db.Valid()
  {
    if !Truthy(fullName) || !Truthy(email) || !Truthy(phone) then Outcome(Fail(400, "All fields are required"), t)
    else if !ValidEmail(email.value) then Outcome(Fail(400, "Invalid email format"), t)
    else if !ValidPhone(phone.value, true) then Outcome(Fail(400, "Invalid phone number format"), t)
    else if fault then Outcome(Fail(500, "Internal server error"), t)
    else if Find(t.users, TakenByOther(email.value)).Some? then
      Outcome(Fail(400, "Email already taken by another user"), t)
    else match Update(t, EmailIs(email.value), RootServer.SetProfile(fullName.value, email.value, phone.value))
      case None => Outcome(Fail(500, "Internal server error"), t)
      case Some(t') =>
        Outcome(Response(200, map["message" := JStr("Profile updated successfully"),
                                  "user" := JObj(map["full_name" := JStr(fullName.value),
                                                     "email" := JStr(email.value),
                                                     "phone_number" := JStr(phone.value)])]), t')
  }

  /** No row can satisfy `email = x AND email != x`. */
  lemma ConflictUnreachable(us: seq<User>, email: string)
    ensures Find(us, TakenByOther(email)).None?
  {
  }

  /** The update matches only rows whose email is already the submitted one,
      so after any call every row keeps its email and id; rows with another
      email are untouched. Whatever the store, the answer is never 'Email
      already taken by another user'. */
  lemma ProfileUpdateKeepsEmails(t: Tables, fault: bool, fullName: Option<string>, email: Option<string>,
                                 phone: Option<string>)
    requires t.Valid()
    ensures var o := ProfileUpdate(t, fault, fullName, email, phone);
      o.response != Fail(400, "Email already taken by another user")
      && |o.db.users| == |t.users|
      && (forall k :: 0 <= k < |t.users| ==>
            (o.db.users[k].email == t.users[k].email && o.db.users[k].id == t.users[k].id
             && o.db.users[k].role == t.users[k].role && o.db.users[k].password == t.users[k].password))
      && (forall k :: 0 <= k < |t.users| && (email.None? || t.users[k].email != email.value) ==>
            o.db.users[k] == t.users[k])
  {
    var o := ProfileUpdate(t, fault, fullName, email, phone);
    if o.db != t {
      ConflictUnreachable(t.users, email.value);
      var f := RootServer.SetProfile(fullName.value, email.value, phone.value);
      assert o.db == Update(t, EmailIs(email.value), f).value;
      forall k | 0 <= k < |t.users|
        ensures o.db.users[k].email == t.users[k].email && o.db.users[k].id == t.users[k].id
        ensures o.db.users[k].role == t.users[k].role && o.db.users[k].password == t.users[k].password
      {
        if EmailIs(email.value)(t.users[k]) {
          assert o.db.users[k] == f(t.users[k]);
        }
      }
    }
  }

  /** Once the checks pass the update always succeeds, and the answer echoes
      the submitted values, whether or not any row had that email. */
  lemma ProfileUpdateEchoesInput(t: Tables, fullName: Option<string>, email: Option<string>, phone: Option<string>)
    requires t.Valid() && Truthy(fullName) && Truthy(email) && Truthy(phone)
    requires ValidEmail(email.value) && ValidPhone(phone.value, true)
    ensures var r := ProfileUpdate(t, false, fullName, email, phone).response;
      r.status == 200
      && r.body["user"] == JObj(map["full_name" := JStr(fullName.value), "email" := JStr(email.value),
                                    "phone_number" := JStr(phone.value)])
  {
    UpdateKeepingKeysSucceeds(t, EmailIs(email.value), RootServer.SetProfile(fullName.value, email.value, phone.value));
  }

  method ProfileUpdateHandler(db: Database, fault: bool, fullName: Option<string>, email: Option<string>,
                              phone: Option<string>) returns (r: Response)
    requires db.Valid()
    modifies db
    ensures db.Valid()
    ensures Outcome(r, db.State()) == ProfileUpdate(old(db.State()), fault, fullName, email, phone)
  {
    if !Truthy(fullName) || !Truthy(email) || !Truthy(phone) {
      return Fail(400, "All fields are required");
    }
    if !ValidEmail(email.value) {
      return Fail(400, "Invalid email format");
    }
    if !ValidPhone(phone.value, true) {
      return Fail(400, "Invalid phone number format");
    }
    if fault {
      return Fail(500, "Internal server error");
    }
    var existing := db.Select(TakenByOther(email.value));
    if existing.Some? {
      return Fail(400, "Email already taken by another user");
    }
    var ok := db.RunUpdate(EmailIs(email.value), RootServer.SetProfile(fullName.value, email.value, phone.value));
    if !ok {
      return Fail(500, "Internal server error");
    }
    r := Response(200, map["message" := JStr("Profile updated successfully"),
                           "user" := JObj(map["full_name" := JStr(fullName.value),
                                              "email" := JStr(email.value),
                                              "phone_number" := JStr(phone.value)])]);
  }

  /** PUT /api/profile/change-password, by email. */
  function ChangePassword(t: Tables, h: Hasher, fault: bool, email: Option<string>,
                          current: Option<string>, newPassword: Option<string>): (o: Outcome)
    requires t.Valid()
    ensures o.db.Valid()
  {
    if !Truthy(email) || !Truthy(current) || !Truthy(newPassword) then Outcome(Fail(400, "All fields are required"), t)
    else if !JsLongEnough(newPassword.value) then
      Outcome(Fail(400, "New password must be at least 8 characters long"), t)
    else if fault then Outcome(Fail(500, "Internal server error"), t)
    else match ByEmail(t.users, email.value)
      case None => Outcome(Fail(404, "User not found"), t)
      case Some(u) =>
        if !h.verify(current.value, u.password) then Outcome(Fail(401, "Current password is incorrect"), t)
        else match Update(t, EmailIs(email.value), SetPassword(h.hash(newPassword.value)))
          case None => Outcome(Fail(500, "Internal server error"), t)
          case Some(t') => Outcome(Done(200, "Password updated successfully"), t')
  }

  /** Both input checks come before any lookup; an unknown email is 404 and a
      wrong current password 401, neither changing anything; success stores
      the hash of the new password in the one row with that email. */
  lemma ChangePasswordEffect(t: Tables, h: Hasher, fault: bool, email: Option<string>,
                             current: Option<string>, newPassword: Option<string>)
    requires t.Valid()
    ensures var o := ChangePassword(t, h, fault, email, current, newPassword);
      (o.response.status != 200 ==> o.db == t)
      && (Truthy(email) && Truthy(current) && Truthy(newPassword) && JsLongEnough(newPassword.value) && !fault ==>
            (o.response.status == 404 <==> !HasEmail(t.users, email.value)))
      && (o.response.status == 200 ==>
            exists k :: 0 <= k < |t.users| && t.users[k].email == email.value
              && h.verify(current.value, t.users[k].password)
              && o.db.users == t.users[k := t.users[k].(password := h.hash(newPassword.value))])
  {
    var o := ChangePassword(t, h, fault, email, current, newPassword);
    if Truthy(email) {
      ByEmailIffStored(t.users, email.value);
    }
    if o.response.status == 200 {
      var u := ByEmail(t.users, email.value).value;
      var k :| 0 <= k < |t.users| && t.users[k] == u;
      UpdateOneRowByEmail(t, EmailIs(email.value), SetPassword(h.hash(newPassword.value)), k);
    }
  }

  method ChangePasswordHandler(db: Database, h: Hasher, fault: bool, email: Option<string>,
                               current: Option<string>, newPassword: Option<string>) returns (r: Response)
    requires db.Valid()
    modifies db
    ensures db.Valid()
    ensures Outcome(r, db.State()) == ChangePassword(old(db.State()), h, fault, email, current, newPassword)
  {
    if !Truthy(email) || !Truthy(current) || !Truthy(newPassword) {
      return Fail(400, "All fields are required");
    }
    if !JsLongEnough(newPassword.value) {
      return Fail(400, "New password must be at least 8 characters long");
    }
    if fault {
      return Fail(500, "Internal server error");
    }
    var row := db.Select(EmailIs(email.value));
    if row.None? {
      return Fail(404, "User not found");
    }
    if !h.verify(current.value, row.value.password) {
      return Fail(401, "Current password is incorrect");
    }
    var ok := db.RunUpdate(EmailIs(email.value), SetPassword(h.hash(newPassword.value)));
    if !ok {
      return Fail(500, "Internal server error");
    }
    r := Done(200, "Password updated successfully");
  }

  /** POST /api/signup: the checks, messages and insert of the root server.
      project/src/server.js repeats this handler. */
  method SignupHandler(db: Database, h: Hasher, fault: bool, fullName: Option<string>, email: Option<string>,
                       password: Option<string>, phone: Option<string>, role: Option<string>) returns (r: Response)
    requires db.Valid()
    modifies db
    ensures db.Valid()
    ensures Outcome(r, db.State()) == RootServer.Signup(old(db.State()), h, fault, fullName, email, password, phone, role)
  {
    r := RootServer.SignupHandler(db, h, fault, fullName, email, password, phone, role);
  }

  /** POST /api/signin, by email alone (project/server.js and project/src/server.js). */
  function Signin(t: Tables, h: Hasher, fault: bool, email: Option<string>, password: Option<string>): Response {
    if !Truthy(email) || !Truthy(password) then Fail(400, "Email and password are required")
    else if fault then Fail(500, "Internal server error")
    else match ByEmail(t.users, email.value)
      case None => Fail(401, "Invalid credentials")
      case Some(u) =>
        if !h.verify(password.value, u.password) then Fail(401, "Invalid credentials")
        else Response(200, map["user" := JObj(Columns(u, WithoutPassword))])
  }

  /** An unknown email and a wrong password get the same answer; a 200 is the
      row with that email, without its password. */
  lemma SigninOutcomes(t: Tables, h: Hasher, email: Option<string>, password: Option<string>)
    requires t.Valid() && Truthy(email) && Truthy(password)
    ensures var r := Signin(t, h, false, email, password);
      (r.status == 401 <==>
         (!HasEmail(t.users, email.value) || !h.verify(password.value, ByEmail(t.users, email.value).value.password)))
      && (r.status == 401 ==> r == Fail(401, "Invalid credentials"))
      && (r.status != 401 ==>
            (r.status == 200 && ByEmail(t.users, email.value).Some?
             && r.body == map["user" := JObj(Columns(ByEmail(t.users, email.value).value, WithoutPassword))]
             && "password" !in r.body["user"].fields))
  {
    ByEmailIffStored(t.users, email.value);
  }

  /** A user registered through signup can sign in here, given a sound hasher. */
  lemma SignupThenSignin(t: Tables, h: Hasher, fullName: Option<string>, email: Option<string>,
                         password: Option<string>, phone: Option<string>, role: Option<string>)
    requires t.Valid() && Sound(h)
    requires RootServer.Signup(t, h, false, fullName, email, password, phone, role).response.status == 201
    ensures Signin(RootServer.Signup(t, h, false, fullName, email, password, phone, role).db, h, false, email, password).status == 200
  {
    RootServer.SignupEffect(t, h, false, fullName, email, password, phone, role);
    var t' := RootServer.Signup(t, h, false, fullName, email, password, phone, role).db;
    var u := User(t.nextId, fullName.value, email.value, h.hash(password.value), phone.value, role.value, "");
    assert t'.users[|t.users|] == u;
    EmailNamesOneRow(t'.users, t'.nextId, u);
    assert h.verify(password.value, h.hash(password.value));
  }

  /** The signin here answers wherever the root server's role-checked signin
      answers 200, for that user's own role. */
  lemma RoleSigninImpliesSignin(t: Tables, h: Hasher, email: Option<string>, password: Option<string>,
                                role: Option<string>)
    requires t.Valid()
    requires RootServer.Signin(t, h, false, false, email, password, role).status == 200
    ensures Signin(t, h, false, email, password) == RootServer.Signin(t, h, false, false, email, password, role)
  {
    var u := Find(t.users, (v: User) => v.email == email.value && v.role == role.value).value;
    EmailNamesOneRow(t.users, t.nextId, u);
  }
}
