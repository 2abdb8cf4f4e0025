/** The Express backend of server.js: the /api/auth.php login, the profile
    update, the password change, signup, role-checked signin and the guide
    status update. Each route is a function from the database and the request
    to an `Outcome`; the routes that write have a method on `Database` proved
    to behave as that function says. */
module RootServer {
  import opened Wrappers
  import opened Text
  import opened Validation
  import opened Store
  import ListOps

  /** The three prefixes bcrypt hashes start with. */
  predicate BcryptPrefix(hash: string) {
    StartsWith(hash, "$2a$") || StartsWith(hash, "$2b$") || StartsWith(hash, "$2y$")
  }

  /** A hasher whose every hash carries a bcrypt prefix, as bcryptjs's do. */
  ghost predicate BcryptShaped(h: Hasher) {
    forall p :: BcryptPrefix(h.hash(p))
  }

  // ------------------------------------------------------- /api/auth.php

  /** The `formattedUser` of the login route (time stamps left out). */
  function FormatUser(u: User): (o: map<string, Json>)
    ensures o.Keys == {"id", "email", "role", "first_name", "last_name", "phone_number"}
  {
    var parts := Split(u.fullName, ' ');
    map["id" := JInt(u.id), "email" := JStr(u.email), "role" := JStr(Lower(u.role)),
        "first_name" := JStr(parts[0]), "last_name" := JStr(Join(parts[1..], ' ')),
        "phone_number" := JStr(u.phone)]
  }

  /** The fields of the login's user object: the lower-cased role, the name
      split at its first space, and no password. */
  lemma FormatUserFields(u: User)
    ensures FormatUser(u)["role"] == JStr(Lower(u.role))
    ensures FormatUser(u)["first_name"] == JStr(FirstWord(u.fullName))
    ensures FormatUser(u)["last_name"] == JStr(AfterFirstSpace(u.fullName))
    ensures "password" !in FormatUser(u)
  {
    SplitHeadAndRest(u.fullName);
  }

  /** POST /api/auth.php. */
  function AuthPhp(t: Tables, h: Hasher, fault: bool, email: Option<string>, password: Option<string>): Response {
    if !Truthy(email) || !Truthy(password) then Fail(400, "Email and password are required")
    else if fault then Fail(500, "Internal server error")
    else match ByEmail(t.users, email.value)
      case None => Fail(401, "Invalid credentials")
      case Some(u) =>
        if !BcryptPrefix(u.password) then Fail(401, "Invalid credentials")
        else if !h.verify(password.value, u.password) then Fail(401, "Invalid credentials")
        else Response(200, map["user" := JObj(FormatUser(u))])
  }

  /** An unknown email, a stored hash without a bcrypt prefix and a wrong
      password all get the same answer; those are the only 401s. */
  lemma AuthPhpUniformRejection(t: Tables, h: Hasher, fault: bool, email: Option<string>, password: Option<string>)
    requires Truthy(email) && Truthy(password) && !fault
    ensures var r := AuthPhp(t, h, fault, email, password);
      var u := ByEmail(t.users, email.value);
      (r.status == 401 <==> u.None? || !BcryptPrefix(u.value.password) || !h.verify(password.value, u.value.password))
      && (r.status == 401 ==> r == Fail(401, "Invalid credentials"))
      && (r.status != 401 ==> r.status == 200)
  {
  }

  /** A successful login names a stored user with that email whose hash
      verifies, and answers its lower-cased role, its name split at the first
      space, and no password. */
  lemma AuthPhpSuccess(t: Tables, h: Hasher, fault: bool, email: Option<string>, password: Option<string>)
    requires AuthPhp(t, h, fault, email, password).status == 200
    ensures exists u :: (u in t.users && u.email == email.value && h.verify(password.value, u.password)
                         && AuthPhp(t, h, fault, email, password).body == map["user" := JObj(FormatUser(u))]
                         && FormatUser(u)["role"] == JStr(Lower(u.role))
                         && FormatUser(u)["first_name"] == JStr(FirstWord(u.fullName))
                         && FormatUser(u)["last_name"] == JStr(AfterFirstSpace(u.fullName))
                         && "password" !in FormatUser(u))
  {
    var u := ByEmail(t.users, email.value).value;
    FormatUserFields(u);
    assert u in t.users && u.email == email.value && h.verify(password.value, u.password);
    assert AuthPhp(t, h, fault, email, password).body == map["user" := JObj(FormatUser(u))];
  }

  // ----------------------------------------- GET and PUT /api/profile/update

  /** `id = ?` against an id sent as text. */
  function IdIs(idText: string): User -> bool {
    (v: User) => SqlId(idText) == Some(v.id)
  }

  const ProfileColumns: set<string> := {"id", "full_name", "email", "phone_number", "role"}

  /** GET /api/profile/update?id=... */
  function ProfileGet(t: Tables, fault: bool, id: Option<string>): Response {
    if !Truthy(id) then Fail(400, "User ID is required")
    else if fault then Fail(500, "Internal server error")
    else match Find(t.users, IdIs(id.value))
      case None => Fail(404, "User not found")
      case Some(u) => Response(200, map["user" := JObj(Columns(u, ProfileColumns))])
  }

  /** A profile read answers 200 exactly for an id some row has, with that
      row's five public columns and no password; otherwise 400, 500 or 404. */
  lemma ProfileGetOutcomes(t: Tables, fault: bool, id: Option<string>)
    ensures var r := ProfileGet(t, fault, id);
      (r.status == 200 <==> Truthy(id) && !fault && exists u :: u in t.users && SqlId(id.value) == Some(u.id))
      && (!Truthy(id) ==> r == Fail(400, "User ID is required"))
      && (r.status == 200 ==> exists u :: u in t.users && SqlId(id.value) == Some(u.id)
                                && r.body == map["user" := JObj(Columns(u, ProfileColumns))]
                                && "password" !in r.body["user"].fields)
  {
    ProfileColumnsHidePassword();
    if Truthy(id) && !fault && exists u :: u in t.users && SqlId(id.value) == Some(u.id) {
      var u :| u in t.users && SqlId(id.value) == Some(u.id);
      assert IdIs(id.value)(u);
    }
    if Truthy(id) && !fault {
      match Find(t.users, IdIs(id.value))
      case None =>
      case Some(u) =>
        assert ProfileGet(t, fault, id).body == map["user" := JObj(Columns(u, ProfileColumns))];
    }
  }

  /** The profile columns leave the password out. */
  lemma ProfileColumnsHidePassword()
    ensures "password" !in ProfileColumns
  {
  }

  /** The row rewrite of the profile UPDATE. */
  function SetProfile(fullName: string, email: string, phone: string): User -> User {
    (u: User) => u.(fullName := fullName, email := email, phone := phone)
  }

  /** PUT /api/profile/update?id=... */
  function ProfilePut(t: Tables, fault: bool, id: Option<string>, fullName: Option<string>,
                      email: Option<string>, phone: Option<string>): (o: Outcome)
    requires t.Valid()
    ensures o.db.Valid()
  {
    if !Truthy(id) then Outcome(Fail(400, "User ID is required"), t)
    else if !Truthy(fullName) || !Truthy(email) || !Truthy(phone) then Outcome(Fail(400, "All fields are required"), t)
    else if !ValidEmail(email.value) then Outcome(Fail(400, "Invalid email format"), t)
    else if !ValidPhone(phone.value, true) then Outcome(Fail(400, "Invalid phone number format"), t)
    else if fault then Outcome(Fail(500, "Internal server error"), t)
    else if Find(t.users, (v: User) => v.email == email.value && !IdIs(id.value)(v)).Some? then
      Outcome(Fail(400, "Email already taken by another user"), t)
    else match Update(t, IdIs(id.value), SetProfile(fullName.value, email.value, phone.value))
      case None => Outcome(Fail(500, "Internal server error"), t)
      case Some(t') =>
        var body := map["message" := JStr("Profile updated successfully")];
        match Find(t'.users, IdIs(id.value))
        case None => Outcome(Response(200, body), t')
        case Some(u) => Outcome(Response(200, body["user" := JObj(Columns(u, ProfileColumns))]), t')
  }

  /** An email held by a different id is refused and nothing changes. */
  lemma ProfilePutRefusesTakenEmail(t: Tables, fault: bool, id: Option<string>, fullName: Option<string>,
                                    email: Option<string>, phone: Option<string>, other: User)
    requires t.Valid() && Truthy(id) && Truthy(fullName) && Truthy(email) && Truthy(phone)
    requires ValidEmail(email.value) && ValidPhone(phone.value, true) && !fault
    requires other in t.users && other.email == email.value && SqlId(id.value) != Some(other.id)
    ensures ProfilePut(t, fault, id, fullName, email, phone) == Outcome(Fail(400, "Email already taken by another user"), t)
  {
    var k :| 0 <= k < |t.users| && t.users[k] == other;
  }

  /** A successful update rewrites only full_name, email and phone_number of
      the row with that id; role, password and every other row are untouched. */
  lemma ProfilePutChangesOnlyThatRow(t: Tables, fault: bool, id: Option<string>, fullName: Option<string>,
                                      email: Option<string>, phone: Option<string>)
    requires t.Valid()
    requires ProfilePut(t, fault, id, fullName, email, phone).response.status == 200
    ensures var t' := ProfilePut(t, fault, id, fullName, email, phone).db;
      |t'.users| == |t.users| && t'.guides == t.guides
      && forall k :: 0 <= k < |t.users| ==>
           t'.users[k] == if SqlId(id.value) == Some(t.users[k].id)
                          then t.users[k].(fullName := fullName.value, email := email.value, phone := phone.value)
                          else t.users[k]
  {
  }

  /** The update cannot fail on a constraint once the conflict check passed. */
  lemma ProfilePutNeverConflicts(t: Tables, id: string, fullName: string, email: string, phone: string)
    requires t.Valid()
    requires Find(t.users, (v: User) => v.email == email && !IdIs(id)(v)).None?
    ensures Update(t, IdIs(id), SetProfile(fullName, email, phone)).Some?
  {
    var us := MapWhere(t.users, IdIs(id), SetProfile(fullName, email, phone));
    forall i, j | 0 <= i < j < |us| ensures us[i].id != us[j].id && us[i].email != us[j].email {
      assert !(t.users[i].email == email && !IdIs(id)(t.users[i]));
      assert !(t.users[j].email == email && !IdIs(id)(t.users[j]));
    }
  }

  /** An id no row has still answers 200, with no `user` in the body, and
      changes nothing. */
  lemma ProfilePutUnknownId(t: Tables, id: Option<string>, fullName: Option<string>,
                            email: Option<string>, phone: Option<string>)
    requires t.Valid() && Truthy(id) && Truthy(fullName) && Truthy(email) && Truthy(phone)
    requires ValidEmail(email.value) && ValidPhone(phone.value, true)
    requires !HasEmail(t.users, email.value)
    requires Find(t.users, IdIs(id.value)).None?
    ensures ProfilePut(t, false, id, fullName, email, phone)
         == Outcome(Response(200, map["message" := JStr("Profile updated successfully")]), t)
  {
    var p := (v: User) => v.email == email.value && !IdIs(id.value)(v);
    assert Find(t.users, p).None?;
    ProfilePutNeverConflicts(t, id.value, fullName.value, email.value, phone.value);
    var t' := Update(t, IdIs(id.value), SetProfile(fullName.value, email.value, phone.value)).value;
    assert t'.users == t.users;
  }

  method ProfilePutHandler(db: Database, fault: bool, id: Option<string>, fullName: Option<string>,
                           email: Option<string>, phone: Option<string>) returns (r: Response)
    requires db.Valid()
    modifies db
    ensures db.Valid()
    ensures Outcome(r, db.State()) == ProfilePut(old(db.State()), fault, id, fullName, email, phone)
  {
    if !Truthy(id) {
      return Fail(400, "User ID is required");
    }
    if !Truthy(fullName) || !Truthy(email) || !Truthy(phone) {
      return Fail(400, "All fields are required");
    }
    if !ValidEmail(email.value) {
      return Fail(400, "Invalid email format");
    }
    if !ValidPhone(phone.value, true) {
      return Fail(400, "Invalid phone number format");
    }
    if fault {
      return Fail(500, "Internal server error");
    }
    var existing := db.Select((v: User) => v.email == email.value && !IdIs(id.value)(v));
    if existing.Some? {
      return Fail(400, "Email already taken by another user");
    }
    var ok := db.RunUpdate(IdIs(id.value), SetProfile(fullName.value, email.value, phone.value));
    if !ok {
      return Fail(500, "Internal server error");
    }
    var row := db.Select(IdIs(id.value));
    var body := map["message" := JStr("Profile updated successfully")];
    if row.Some? {
      body := body["user" := JObj(Columns(row.value, ProfileColumns))];
    }
    r := Response(200, body);
  }

  // --------------------------------------- POST /api/profile/change-password

  /** POST /api/profile/change-password. */
  function ChangePassword(t: Tables, h: Hasher, fault: bool, id: Option<string>,
                          current: Option<string>, newPassword: Option<string>): (o: Outcome)
    requires t.Valid()
    ensures o.db.Valid()
  {
    if !Truthy(id) then Outcome(Fail(400, "User ID is required"), t)
    else if !Truthy(current) || !Truthy(newPassword) then
      Outcome(Fail(400, "Current password and new password are required"), t)
    else if !JsLongEnough(newPassword.value) then
      Outcome(Fail(400, "New password must be at least 8 characters long"), t)
    else if fault then Outcome(Fail(500, "Internal server error"), t)
    else match Find(t.users, IdIs(id.value))
      case None => Outcome(Fail(404, "User not found"), t)
      case Some(u) =>
        if !h.verify(current.value, u.password) then Outcome(Fail(401, "Current password is incorrect"), t)
        else match Update(t, IdIs(id.value), SetPassword(h.hash(newPassword.value)))
          case None => Outcome(Fail(500, "Internal server error"), t)
          case Some(t') => Outcome(Done(200, "Password changed successfully"), t')
  }

  /** A short new password is refused whatever the database holds. */
  lemma ChangePasswordShortRefused(t: Tables, t2: Tables, h: Hasher, fault: bool, id: Option<string>,
                                   current: Option<string>, newPassword: Option<string>)
    requires t.Valid() && t2.Valid()
    requires Truthy(id) && Truthy(current) && Truthy(newPassword) && Utf16Length(newPassword.value) < 8
    ensures ChangePassword(t, h, fault, id, current, newPassword)
         == Outcome(Fail(400, "New password must be at least 8 characters long"), t)
    ensures ChangePassword(t2, h, fault, id, current, newPassword).response
         == ChangePassword(t, h, fault, id, current, newPassword).response
  {
  }

  /** Exactly the answers that leave the database as it was, and the one that
      does not: success replaces only that user's hash, with the hash of the
      new password, and the new password then verifies. */
  lemma ChangePasswordEffect(t: Tables, h: Hasher, fault: bool, id: Option<string>,
                             current: Option<string>, newPassword: Option<string>)
    requires t.Valid()
    ensures var o := ChangePassword(t, h, fault, id, current, newPassword);
      (o.response.status != 200 ==> o.db == t)
      && (o.response.status == 401 ==> o.response == Fail(401, "Current password is incorrect"))
      && (o.response.status == 200 ==>
            o.response == Done(200, "Password changed successfully")
            && |o.db.users| == |t.users| && o.db.guides == t.guides
            && exists k :: 0 <= k < |t.users| && SqlId(id.value) == Some(t.users[k].id)
                 && h.verify(current.value, t.users[k].password)
                 && o.db.users[k] == t.users[k].(password := h.hash(newPassword.value))
                 && (forall j :: 0 <= j < |t.users| && j != k ==> o.db.users[j] == t.users[j]))
  {
    if Truthy(id) && Truthy(current) && Truthy(newPassword) && JsLongEnough(newPassword.value) && !fault {
      match Find(t.users, IdIs(id.value))
      case None =>
      case Some(u) =>
        if h.verify(current.value, u.password) {
          var k :| 0 <= k < |t.users| && t.users[k] == u;
          UpdateOneRow(t, IdIs(id.value), SetPassword(h.hash(newPassword.value)), k);
        }
    }
  }

  method ChangePasswordHandler(db: Database, h: Hasher, fault: bool, id: Option<string>,
                               current: Option<string>, newPassword: Option<string>) returns (r: Response)
    requires db.Valid()
    modifies db
    ensures db.Valid()
    ensures Outcome(r, db.State()) == ChangePassword(old(db.State()), h, fault, id, current, newPassword)
  {
    if !Truthy(id) {
      return Fail(400, "User ID is required");
    }
    if !Truthy(current) || !Truthy(newPassword) {
      return Fail(400, "Current password and new password are required");
    }
    if !JsLongEnough(newPassword.value) {
      return Fail(400, "New password must be at least 8 characters long");
    }
    if fault {
      return Fail(500, "Internal server error");
    }
    var row := db.Select(IdIs(id.value));
    if row.None? {
      return Fail(404, "User not found");
    }
    if !h.verify(current.value, row.value.password) {
      return Fail(401, "Current password is incorrect");
    }
    var ok := db.RunUpdate(IdIs(id.value), SetPassword(h.hash(newPassword.value)));
    if !ok {
      return Fail(500, "Internal server error");
    }
    r := Done(200, "Password changed successfully");
  }

  // --------------------------------------------------------- POST /api/signup

  /** POST /api/signup. */
  function Signup(t: Tables, h: Hasher, fault: bool, fullName: Option<string>, email: Option<string>,
                  password: Option<string>, phone: Option<string>, role: Option<string>): (o: Outcome)
    requires t.Valid()
    ensures o.db.Valid()
  {
    if !Truthy(fullName) || !Truthy(email) || !Truthy(password) || !Truthy(phone) || !Truthy(role) then
      Outcome(Fail(400, "All fields are required"), t)
    else if !ValidEmail(email.value) then Outcome(Fail(400, "Invalid email format"), t)
    else if !JsLongEnough(password.value) then
      Outcome(Fail(400, "Password must be at least 8 characters long"), t)
    else if !ValidPhone(phone.value, true) then Outcome(Fail(400, "Invalid phone number format"), t)
    else if fault then Outcome(Fail(500, "Internal server error"), t)
    else if ByEmail(t.users, email.value).Some? then Outcome(Fail(400, "Email already registered"), t)
    else match Insert(t, fullName.value, email.value, h.hash(password.value), phone.value, role.value)
      case None => Outcome(Fail(500, "Internal server error"), t)
      case Some((t', _)) => Outcome(Done(201, "User registered successfully"), t')
  }

  /** Signup's answer and effect: every 400 leaves the store unchanged, a
      stored email is refused, and a 201 appends exactly one row holding the
      hash of the password. */
  lemma SignupEffect(t: Tables, h: Hasher, fault: bool, fullName: Option<string>, email: Option<string>,
                     password: Option<string>, phone: Option<string>, role: Option<string>)
    requires t.Valid()
    ensures var o := Signup(t, h, fault, fullName, email, password, phone, role);
      (o.response.status != 201 ==> o.db == t)
      && (o.response.status == 201 <==>
            Truthy(fullName) && Truthy(email) && Truthy(password) && Truthy(phone) && Truthy(role)
            && ValidEmail(email.value) && JsLongEnough(password.value) && ValidPhone(phone.value, true)
            && !fault && !HasEmail(t.users, email.value) && SchemaRole(role.value))
      && (o.response.status == 201 ==>
            o.db.users == t.users + [User(t.nextId, fullName.value, email.value, h.hash(password.value),
                                          phone.value, role.value, "")])
  {
    if Truthy(email) {
      ByEmailIffStored(t.users, email.value);
    }
  }

  /** A registered email is refused after the four input checks pass. */
  lemma SignupRefusesRegisteredEmail(t: Tables, h: Hasher, fullName: Option<string>, email: Option<string>,
                                     password: Option<string>, phone: Option<string>, role: Option<string>)
    requires t.Valid()
    requires Truthy(fullName) && Truthy(email) && Truthy(password) && Truthy(phone) && Truthy(role)
    requires ValidEmail(email.value) && JsLongEnough(password.value) && ValidPhone(phone.value, true)
    requires HasEmail(t.users, email.value)
    ensures Signup(t, h, false, fullName, email, password, phone, role)
         == Outcome(Fail(400, "Email already registered"), t)
  {
    ByEmailIffStored(t.users, email.value);
  }

  /** The checks run in the order fields, email, length, phone: the first
      failing one decides the message. */
  lemma SignupCheckOrder(t: Tables, h: Hasher, fault: bool, fullName: Option<string>, email: Option<string>,
                         password: Option<string>, phone: Option<string>, role: Option<string>)
    requires t.Valid()
    requires Truthy(fullName) && Truthy(email) && Truthy(password) && Truthy(phone) && Truthy(role)
    ensures var r := Signup(t, h, fault, fullName, email, password, phone, role).response;
      (!ValidEmail(email.value) ==> r == Fail(400, "Invalid email format"))
      && (ValidEmail(email.value) && !JsLongEnough(password.value) ==>
            r == Fail(400, "Password must be at least 8 characters long"))
      && (ValidEmail(email.value) && JsLongEnough(password.value) && !ValidPhone(phone.value, true) ==>
            r == Fail(400, "Invalid phone number format"))
  {
  }

  method SignupHandler(db: Database, h: Hasher, fault: bool, fullName: Option<string>, email: Option<string>,
                       password: Option<string>, phone: Option<string>, role: Option<string>) returns (r: Response)
    requires db.Valid()
    modifies db
    ensures db.Valid()
    ensures Outcome(r, db.State()) == Signup(old(db.State()), h, fault, fullName, email, password, phone, role)
  {
    if !Truthy(fullName) || !Truthy(email) || !Truthy(password) || !Truthy(phone) || !Truthy(role) {
      return Fail(400, "All fields are required");
    }
    if !ValidEmail(email.value) {
      return Fail(400, "Invalid email format");
    }
    if !JsLongEnough(password.value) {
      return Fail(400, "Password must be at least 8 characters long");
    }
    if !ValidPhone(phone.value, true) {
      return Fail(400, "Invalid phone number format");
    }
    if fault {
      return Fail(500, "Internal server error");
    }
    var existing := db.Select((v: User) => v.email == email.value);
    if existing.Some? {
      return Fail(400, "Email already registered");
    }
    var id := db.RunInsert(fullName.value, email.value, h.hash(password.value), phone.value, role.value);
    if id.None? {
      return Fail(500, "Internal server error");
    }
    r := Done(201, "User registered successfully");
  }

  /** Signing up and then logging in through /api/auth.php with the same
      credentials succeeds, given a sound bcrypt-shaped hasher. */
  lemma SignupThenAuthPhp(t: Tables, h: Hasher, fullName: Option<string>, email: Option<string>,
                          password: Option<string>, phone: Option<string>, role: Option<string>)
    requires t.Valid() && Sound(h) && BcryptShaped(h)
    requires Signup(t, h, false, fullName, email, password, phone, role).response.status == 201
    ensures AuthPhp(Signup(t, h, false, fullName, email, password, phone, role).db, h, false, email, password).status == 200
  {
    SignupEffect(t, h, false, fullName, email, password, phone, role);
    var t' := Signup(t, h, false, fullName, email, password, phone, role).db;
    var u := User(t.nextId, fullName.value, email.value, h.hash(password.value), phone.value, role.value, "");
    assert t'.users[|t.users|] == u;
    EmailNamesOneRow(t'.users, t'.nextId, u);
    assert h.verify(password.value, h.hash(password.value));
    assert BcryptPrefix(h.hash(password.value));
  }

  // --------------------------------------------------------- POST /api/signin

  /** POST /api/signin; `devMode` is `NODE_ENV === 'development'`. */
  function Signin(t: Tables, h: Hasher, fault: bool, devMode: bool, email: Option<string>,
                  password: Option<string>, role: Option<string>): Response
  {
    if !Truthy(email) || !Truthy(password) || !Truthy(role) then
      Fail(400, "Email, password, and role are required")
    else if !(role.value == "Admin" || role.value == "Tourist" || role.value == "Guide") then
      Fail(400, "Invalid role specified")
    else if fault then Fail(500, "Internal server error")
    else match Find(t.users, (v: User) => v.email == email.value && v.role == role.value)
      case None => Fail(401, "No user found with this role and email!")
      case Some(u) =>
        if (if devMode then u.password != password.value else !h.verify(password.value, u.password)) then
          Fail(401, "Incorrect password!")
        else Response(200, map["user" := JObj(Columns(u, WithoutPassword))])
  }

  /** Only the exact role names pass; a 200 names a stored user with that
      email and exactly that role, and its body has no password. */
  lemma SigninSuccess(t: Tables, h: Hasher, fault: bool, devMode: bool, email: Option<string>,
                      password: Option<string>, role: Option<string>)
    requires Signin(t, h, fault, devMode, email, password, role).status == 200
    ensures role.value == "Admin" || role.value == "Tourist" || role.value == "Guide"
    ensures exists u :: (u in t.users && u.email == email.value && u.role == role.value
                         && Signin(t, h, fault, devMode, email, password, role).body
                            == map["user" := JObj(Columns(u, WithoutPassword))])
    ensures "password" !in Signin(t, h, fault, devMode, email, password, role).body["user"].fields
  {
    var u := Find(t.users, (v: User) => v.email == email.value && v.role == role.value).value;
    assert u in t.users;
  }

  /** A lower-case role is refused before any lookup. */
  lemma SigninRoleIsCaseSensitive(t: Tables, h: Hasher, fault: bool, devMode: bool, email: Option<string>,
                                  password: Option<string>)
    requires Truthy(email) && Truthy(password)
    ensures Signin(t, h, fault, devMode, email, password, Some("admin")) == Fail(400, "Invalid role specified")
  {
  }

  // ------------------------------------------------------ GET /api/auth/check

  /** The `formattedUser` of the auth check: like the login's, but the role
      gets an upper-case first letter and a lower-case rest. */
  function CheckedUser(u: User): (o: map<string, Json>)
    ensures o.Keys == {"id", "email", "role", "first_name", "last_name", "phone_number"}
  {
    FormatUser(u)["role" := JStr(UcFirst(Lower(u.role)))]
  }

  /** GET /api/auth/check: the id comes from the query, else from the
      `user-id` header. */
  function AuthCheck(t: Tables, fault: bool, queryId: Option<string>, headerId: Option<string>): Response {
    var id := if Truthy(queryId) then queryId else headerId;
    if !Truthy(id) then Fail(401, "Not authenticated")
    else if fault then Fail(500, "Internal server error")
    else match Find(t.users, IdIs(id.value))
      case None => Fail(401, "User not found")
      case Some(u) => Response(200, map["user" := JObj(CheckedUser(u))])
  }

  /** Both a missing id and an unknown one answer 401; the query id wins over
      the header; a 200 gives back a schema role exactly as stored. */
  lemma AuthCheckOutcomes(t: Tables, fault: bool, queryId: Option<string>, headerId: Option<string>)
    requires t.Valid()
    ensures var r := AuthCheck(t, fault, queryId, headerId);
      var id := if Truthy(queryId) then queryId else headerId;
      (Truthy(queryId) ==> r == AuthCheck(t, fault, queryId, None))
      && (r.status == 401 <==> !Truthy(id) || (!fault && Find(t.users, IdIs(id.value)).None?))
      && (r.status == 200 ==> exists u :: u in t.users && SqlId(id.value) == Some(u.id)
                                && r.body == map["user" := JObj(CheckedUser(u))]
                                && CheckedUser(u)["role"] == JStr(u.role)
                                && CheckedUser(u)["first_name"] == JStr(FirstWord(u.fullName))
                                && CheckedUser(u)["last_name"] == JStr(AfterFirstSpace(u.fullName)))
  {
    var r := AuthCheck(t, fault, queryId, headerId);
    var id := if Truthy(queryId) then queryId else headerId;
    if r.status == 200 {
      var u := Find(t.users, IdIs(id.value)).value;
      assert u in t.users;
      CheckedUserFields(u);
      assert r.body == map["user" := JObj(CheckedUser(u))];
    }
  }

  /** A schema role comes back from the auth check exactly as stored. */
  lemma CheckedUserFields(u: User)
    requires SchemaRole(u.role)
    ensures CheckedUser(u)["role"] == JStr(u.role)
    ensures CheckedUser(u)["first_name"] == JStr(FirstWord(u.fullName))
    ensures CheckedUser(u)["last_name"] == JStr(AfterFirstSpace(u.fullName))
  {
    FormatUserFields(u);
    assert UcFirst(Lower(u.role)) == u.role;
  }

  // ---------------------------------------- GET /api/admin/users.php (Express)

  const ListedColumns: set<string> := {"id", "full_name", "email", "role", "phone_number"}

  /** GET /api/admin/users.php in server.js: every user's five listed
      columns, with no access check. */
  function ListUsers(t: Tables, fault: bool): Response {
    if fault then Fail(500, "An error occurred while fetching users")
    else Response(200, map["users" := JList(ObjectList(t.users, ListedColumns))])
  }

  /** The list has one entry per stored user, each that user's columns without
      the password. */
  lemma ListUsersOutcomes(t: Tables, fault: bool)
    ensures var r := ListUsers(t, fault);
      (r.status == 200 <==> !fault)
      && (r.status == 200 ==>
            r.body.Keys == {"users"} && |r.body["users"].items| == |t.users|
            && forall k :: 0 <= k < |t.users| ==>
                 r.body["users"].items[k] == JObj(Columns(t.users[k], ListedColumns))
                 && "password" !in r.body["users"].items[k].fields)
  {
  }

  // ------------------------------------------- GET /api/admin/guides.php

  /** GET /api/admin/guides.php: the users whose role is the text "guide". */
  function ListGuides(t: Tables, fault: bool): Response {
    if fault then Fail(500, "Failed to fetch guides")
    else
      var rows := ListOps.Filter(t.users, RoleIsGuideText);
      Response(200, map["guides" := JList(ObjectList(rows, GuideColumns))])
  }

  const GuideColumns: set<string> := {"id", "full_name", "email", "phone_number", "status"}

  /** `u.role = 'guide'`. */
  predicate RoleIsGuideText(v: User) {
    v.role == "guide"
  }

  /** Under exact comparison no schema role is "guide", so the guide list is
      always empty, whatever guides are registered. */
  lemma ListGuidesIsEmpty(t: Tables)
    requires t.Valid()
    ensures ListGuides(t, false) == Response(200, map["guides" := JList([])])
  {
    var rows := ListOps.Filter(t.users, RoleIsGuideText);
    if rows != [] {
      ListOps.FilterMembership(t.users, RoleIsGuideText, rows[0]);
      assert false;
    }
  }

  // ------------------------------------------- PATCH /api/admin/guides.php

  /** PATCH /api/admin/guides.php?id=... with `status` in the body. The
      status UPDATE matches only rows whose role is the text "guide". */
  function GuideStatus(t: Tables, fault: bool, id: Option<string>, status: Option<string>): (o: Outcome)
    requires t.Valid()
    ensures o.db.Valid()
  {
    if !Truthy(id) || !Truthy(status) then Outcome(Fail(400, "Missing required parameters"), t)
    else if fault then Outcome(Fail(500, "Failed to update guide status"), t)
    else
      var p := (v: User) => IdIs(id.value)(v) && v.role == "guide";
      var f := (v: User) => v.(status := status.value);
      match Update(t, p, f)
      case None => Outcome(Fail(500, "Failed to update guide status"), t)
      case Some(t') =>
        if status.value != "approved" then Outcome(Done(200, "Guide status updated successfully"), t')
        else match SqlId(id.value)
          case None => Outcome(Fail(500, "Failed to update guide status"), t')
          case Some(n) =>
            var t'' := if n in t'.guides then t' else t'.(guides := t'.guides + [n]);
            Outcome(Done(200, "Guide status updated successfully"), t'')
  }

  /** Under exact comparison the ENUM holds 'Guide', never 'guide', so the
      status UPDATE matches no stored row and the users table is unchanged;
      only the approval's guides row is written. */
  lemma GuideStatusTouchesNoUser(t: Tables, fault: bool, id: Option<string>, status: Option<string>)
    requires t.Valid()
    ensures GuideStatus(t, fault, id, status).db.users == t.users
    ensures GuideStatus(t, fault, id, status).response.status == 200 ==>
      Truthy(id) && Truthy(status)
      && GuideStatus(t, fault, id, status).db.guides
         == if status.value == "approved" && SqlId(id.value).value !in t.guides
            then t.guides + [SqlId(id.value).value] else t.guides
  {
    if Truthy(id) && Truthy(status) && !fault {
      var p := (v: User) => IdIs(id.value)(v) && v.role == "guide";
      var f := (v: User) => v.(status := status.value);
      UpdateKeepingKeysSucceeds(t, p, f);
      var t' := Update(t, p, f).value;
      assert t'.users == t.users by {
        forall k | 0 <= k < |t.users| ensures t'.users[k] == t.users[k] {
          assert !p(t.users[k]);
        }
      }
    }
  }

  /** Number of `guides` rows for one user. */
  function Occurrences(s: seq<nat>, n: nat): (c: nat)
    ensures c == 0 <==> n !in s
  {
    if s == [] then 0 else (if s[0] == n then 1 else 0) + Occurrences(s[1..], n)
  }

  /** After an approval the user has a guides row, and never a second one. */
  lemma ApprovalKeepsOneGuideRow(t: Tables, fault: bool, id: Option<string>, n: nat)
    requires t.Valid() && Occurrences(t.guides, n) <= 1
    requires Truthy(id) && SqlId(id.value) == Some(n)
    requires GuideStatus(t, fault, id, Some("approved")).response.status == 200
    ensures var g := GuideStatus(t, fault, id, Some("approved")).db.guides;
      n in g && Occurrences(g, n) == 1
  {
    var g := GuideStatus(t, fault, id, Some("approved")).db.guides;
    if n !in t.guides {
      OccurrencesAppend(t.guides, [n], n);
    }
  }

  lemma {:induction false} OccurrencesAppend(a: seq<nat>, b: seq<nat>, n: nat)
    ensures Occurrences(a + b, n) == Occurrences(a, n) + Occurrences(b, n)
  {
    if a == [] {
      assert a + b == b;
    } else {
      assert (a + b)[1..] == a[1..] + b;
      OccurrencesAppend(a[1..], b, n);
    }
  }

  /** Approving twice leaves the same tables as approving once. */
  lemma ApprovalIdempotent(t: Tables, id: Option<string>)
    requires t.Valid()
    ensures var once := GuideStatus(t, false, id, Some("approved")).db;
      GuideStatus(once, false, id, Some("approved")).db == once
  {
    var once := GuideStatus(t, false, id, Some("approved")).db;
    if Truthy(id) {
      var p := (v: User) => IdIs(id.value)(v) && v.role == "guide";
      var f := (v: User) => v.(status := "approved");
      UpdateKeepingKeysSucceeds(t, p, f);
      UpdateKeepingKeysSucceeds(once, p, f);
      var t1 := Update(t, p, f).value;
      var t2 := Update(once, p, f).value;
      assert t2.users == once.users by {
        forall k | 0 <= k < |once.users| ensures t2.users[k] == once.users[k] {
        }
      }
    }
  }

  method GuideStatusHandler(db: Database, fault: bool, id: Option<string>, status: Option<string>)
    returns (r: Response)
    requires db.Valid()
    modifies db
    ensures db.Valid()
    ensures Outcome(r, db.State()) == GuideStatus(old(db.State()), fault, id, status)
  {
    if !Truthy(id) || !Truthy(status) {
      return Fail(400, "Missing required parameters");
    }
    if fault {
      return Fail(500, "Failed to update guide status");
    }
    var p := (v: User) => IdIs(id.value)(v) && v.role == "guide";
    var f := (v: User) => v.(status := status.value);
    var ok := db.RunUpdate(p, f);
    if !ok {
      return Fail(500, "Failed to update guide status");
    }
    if status.value == "approved" {
      var n := SqlId(id.value);
      if n.None? {
        return Fail(500, "Failed to update guide status");
      }
      var exists_ := db.HasGuide(n.value);
      if !exists_ {
        db.InsertGuide(n.value);
      }
    }
    r := Done(200, "Guide status updated successfully");
  }
}
