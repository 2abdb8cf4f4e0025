/** The mysqli PHP endpoints of src/api/: auth.php, signup.php, signin.php,
    profile_update.php and change_password.php. Each includes config.php,
    whose `handle_cors` answers an OPTIONS request with an empty 200 before
    the script's own method check, and each `send_json_response` ends the
    script, so every handler is an early-return chain. Text fields are
    passed through `sanitize_input`; passwords are not. PHP `isset` on a
    decoded JSON field is `Some`. `FILTER_VALIDATE_EMAIL` is the parameter
    `filterEmail`. */
module MysqliApi {
  import opened Wrappers
  import opened Text
  import opened Validation
  import opened PhpConfig
  import opened Store
  import RootServer
  import ProjectServer
  import opened PhpValues

  /** `ucfirst(strtolower(role))`. */
  function RecaseRole(role: string): (r: string)
    ensures |r| == |role|
    ensures r != "" ==> r[0] == UpperChar(LowerChar(role[0])) && r[1..] == Lower(role)[1..]
  {
    UcFirst(Lower(role))
  }

  /** The stored ENUM spellings come back unchanged. */
  lemma RecaseKeepsSchemaRoles(role: string)
    requires SchemaRole(role)
    ensures RecaseRole(role) == role
  {
  }

  /** `$formattedUser` of auth.php. */
  function FormatUser(u: User): (o: map<string, Json>)
    ensures o.Keys == {"id", "email", "role", "first_name", "last_name", "phone_number"}
  {
    var parts := Split(u.fullName, ' ');
    map["id" := JInt(u.id), "email" := JStr(u.email), "role" := JStr(RecaseRole(u.role)),
        "first_name" := JStr(parts[0]), "last_name" := JStr(Join(parts[1..], ' ')),
        "phone_number" := JStr(u.phone)]
  }

  /** For a role inside the ENUM the user object gives the role back as
      stored, the name split at its first space, and no password. */
  lemma FormatUserFields(u: User)
    requires SchemaRole(u.role)
    ensures FormatUser(u)["role"] == JStr(u.role)
    ensures FormatUser(u)["first_name"] == JStr(FirstWord(u.fullName))
    ensures FormatUser(u)["last_name"] == JStr(AfterFirstSpace(u.fullName))
    ensures "password" !in FormatUser(u)
  {
    SplitHeadAndRest(u.fullName);
    RecaseKeepsSchemaRoles(u.role);
  }

  /** The columns signin.php selects, without the password it unsets. */
  const SigninColumns: set<string> := {"id", "full_name", "email", "phone_number", "role"}

  /** src/api/auth.php as written. The script declares `sanitize_input`
      itself (lines 104-110), and PHP binds a top-level function when it
      compiles the file; the `require_once 'config.php'` of line 3 then
      compiles a second declaration of it and stops with the fatal
      "Cannot redeclare sanitize_input()" before any line of config.php
      runs. With `display_errors` on PHP prints the error under status 200,
      and with it off it answers 500. */
  function AuthAsWritten(displayErrors: bool, m: Method, email: Option<string>, password: Option<string>): (a: Answer)
    ensures a.Crashed? && a.error == "Cannot redeclare sanitize_input()"
    ensures a.status == if displayErrors then 200 else 500
  {
    Crashed(if displayErrors then 200 else 500, "Cannot redeclare sanitize_input()")
  }

  /** No request to auth.php as written is answered with JSON, whatever its
      method and fields, while the script with one declaration (`Auth`)
      answers OPTIONS with an empty 200. */
  lemma AuthNeverSendsJson(displayErrors: bool, t: Tables, h: Hasher, fault: bool, m: Method,
                           email: Option<string>, password: Option<string>)
    ensures !AuthAsWritten(displayErrors, m, email, password).Sent?
    ensures m == Options ==> Sent(Auth(t, h, fault, m, email, password)) != AuthAsWritten(displayErrors, m, email, password)
  {
  }

  /** src/api/auth.php with `sanitize_input` declared once; `fault` is the
      failed `prepare`. */
  function Auth(t: Tables, h: Hasher, fault: bool, m: Method, email: Option<string>, password: Option<string>): Response {
    if m == Options then Response(200, map[])
    else if m != Post then Fail(405, "Method not allowed")
    else if email.None? || password.None? then Fail(400, "Email and password are required")
    else if fault then Fail(500, "Database error")
    else AuthFor(t, h, SanitizeInput(email.value), password.value)
  }

  /** The lookup and verification of auth.php, given the sanitised email. */
  function AuthFor(t: Tables, h: Hasher, email: string, password: string): Response {
    match ByEmail(t.users, email)
    case None => Fail(401, "Invalid credentials")
    case Some(u) =>
      if !h.verify(password, u.password) then Fail(401, "Invalid credentials")
      else if PhpEmpty(u.role) then Fail(500, "User role not found")
      else Response(200, map["user" := JObj(FormatUser(u))])
  }

  /** OPTIONS is answered first, then every other non-POST method, then a
      missing field; past those the email is sanitised and the password is
      passed on exactly as sent. */
  lemma AuthGate(t: Tables, h: Hasher, fault: bool, m: Method, email: Option<string>, password: Option<string>)
    ensures m == Options ==> Auth(t, h, fault, m, email, password) == Response(200, map[])
    ensures m != Options && m != Post ==> Auth(t, h, fault, m, email, password) == Fail(405, "Method not allowed")
    ensures m == Post && (email.None? || password.None?) ==>
      Auth(t, h, fault, m, email, password) == Fail(400, "Email and password are required")
    ensures m == Post && email.Some? && password.Some? && !fault ==>
      Auth(t, h, fault, m, email, password) == AuthFor(t, h, SanitizeInput(email.value), password.value)
  {
  }

  /** An unknown email and a failed verification share one 401, and under the
      ENUM no verified user has an empty role, so 'User role not found' is
      never sent. */
  lemma AuthRejections(t: Tables, h: Hasher, email: string, password: string)
    requires t.Valid()
    ensures var r := AuthFor(t, h, email, password);
      var u := ByEmail(t.users, email);
      (r.status == 401 <==> u.None? || !h.verify(password, u.value.password))
      && (r.status == 401 ==> r == Fail(401, "Invalid credentials"))
      && (r.status != 401 ==> r.status == 200)
  {
  }

  /** A successful login names the user stored under that email, verified
      against the password; the role comes back re-cased (for a stored ENUM
      value, unchanged) and the name is split at the first space; no
      password is sent. */
  lemma AuthSuccess(t: Tables, h: Hasher, email: string, password: string)
    requires t.Valid()
    requires AuthFor(t, h, email, password).status == 200
    ensures var u := ByEmail(t.users, email).value;
      u in t.users && u.email == email && h.verify(password, u.password)
      && AuthFor(t, h, email, password).body == map["user" := JObj(FormatUser(u))]
      && FormatUser(u)["role"] == JStr(u.role)
      && FormatUser(u)["first_name"] == JStr(FirstWord(u.fullName))
      && FormatUser(u)["last_name"] == JStr(AfterFirstSpace(u.fullName))
      && "password" !in FormatUser(u)
  {
    var u := ByEmail(t.users, email).value;
    assert u in t.users;
    FormatUserFields(u);
    assert AuthFor(t, h, email, password).body == map["user" := JObj(FormatUser(u))];
  }

  /** The password is verified as sent, so a stored user whose hash is the
      hash of that exact password (markup and all) logs in. */
  lemma AuthVerifiesRawPassword(t: Tables, h: Hasher, u: User, password: string)
    requires t.Valid() && Sound(h)
    requires u in t.users && u.password == h.hash(password)
    ensures AuthFor(t, h, u.email, password).status == 200
  {
    EmailNamesOneRow(t.users, t.nextId, u);
    assert h.verify(password, h.hash(password));
  }

  // ------------------------------------------------------------ signup.php

  /** The user object signup.php answers with after the insert. */
  function CreatedUser(id: nat, fullName: string, email: string, phone: string, role: string): (o: map<string, Json>)
    ensures "password" !in o && o.Keys == {"id", "full_name", "email", "phone_number", "role"}
  {
    map["id" := JInt(id), "full_name" := JStr(fullName), "email" := JStr(email),
        "phone_number" := JStr(phone), "role" := JStr(role)]
  }

  /** src/api/signup.php; `fault` is a failed `prepare`. */
  function Signup(t: Tables, h: Hasher, fault: bool, filterEmail: string -> bool, m: Method,
                  fullName: Option<string>, email: Option<string>, password: Option<string>,
                  phone: Option<string>, role: Option<string>): (o: Outcome)
    requires t.Valid()
    ensures o.db.Valid()
  {
    if m == Options then Outcome(Response(200, map[]), t)
    else if m != Post then Outcome(Fail(405, "Method not allowed"), t)
    else if fullName.None? || email.None? || password.None? || phone.None? || role.None? then
      Outcome(Fail(400, "All fields are required"), t)
    else SignupFor(t, h, fault, filterEmail, SanitizeInput(fullName.value), SanitizeInput(email.value),
                   password.value, SanitizeInput(phone.value), SanitizeInput(role.value))
  }

  /** What signup.php does once name, email, phone and role are sanitised. */
  function SignupFor(t: Tables, h: Hasher, fault: bool, filterEmail: string -> bool,
                     fullName: string, email: string, password: string, phone: string, role: string): (o: Outcome)
    requires t.Valid()
    ensures o.db.Valid()
  {
    if !filterEmail(email) then Outcome(Fail(400, "Invalid email format"), t)
    else if !PhpLongEnough(password) then Outcome(Fail(400, "Password must be at least 8 characters long"), t)
    else if !ValidPhone(phone, false) then Outcome(Fail(400, "Invalid phone number format"), t)
    else if fault then Outcome(Fail(500, "Database error"), t)
    else if ByEmail(t.users, email).Some? then Outcome(Fail(400, "Email already registered"), t)
    else match Insert(t, fullName, email, h.hash(password), phone, role)
      case None => Outcome(Fail(500, "Failed to register user"), t)
      case Some((t', id)) =>
        Outcome(Response(201, map["message" := JStr("User registered successfully"),
                                  "user" := JObj(CreatedUser(id, fullName, email, phone, role))]), t')
  }

  /** OPTIONS, then any other non-POST method, then a missing key are
      answered without touching the store; past them the four text fields
      are sanitised and the password is passed on as sent. */
  lemma SignupGate(t: Tables, h: Hasher, fault: bool, filterEmail: string -> bool, m: Method,
                   fullName: Option<string>, email: Option<string>, password: Option<string>,
                   phone: Option<string>, role: Option<string>)
    requires t.Valid()
    ensures var o := Signup(t, h, fault, filterEmail, m, fullName, email, password, phone, role);
      (m == Options ==> o == Outcome(Response(200, map[]), t))
      && (m != Options && m != Post ==> o == Outcome(Fail(405, "Method not allowed"), t))
      && (m == Post && (fullName.None? || email.None? || password.None? || phone.None? || role.None?) ==>
            o == Outcome(Fail(400, "All fields are required"), t))
      && (m == Post && fullName.Some? && email.Some? && password.Some? && phone.Some? && role.Some? ==>
            o == SignupFor(t, h, fault, filterEmail, SanitizeInput(fullName.value), SanitizeInput(email.value),
                           password.value, SanitizeInput(phone.value), SanitizeInput(role.value)))
  {
  }

  /** The checks run in the order email filter, byte length, phone; a
      registered email is refused; nothing changes unless the answer is 201;
      a 201 appends one row holding the given fields and the hash of the
      password, and answers with that row's id and no password. */
  lemma SignupEffect(t: Tables, h: Hasher, fault: bool, filterEmail: string -> bool,
                     fullName: string, email: string, password: string, phone: string, role: string)
    requires t.Valid()
    ensures var o := SignupFor(t, h, fault, filterEmail, fullName, email, password, phone, role);
      (!filterEmail(email) ==> o.response == Fail(400, "Invalid email format"))
      && (filterEmail(email) && !PhpLongEnough(password) ==>
            o.response == Fail(400, "Password must be at least 8 characters long"))
      && (filterEmail(email) && PhpLongEnough(password) && !ValidPhone(phone, false) ==>
            o.response == Fail(400, "Invalid phone number format"))
      && ((filterEmail(email) && PhpLongEnough(password) && ValidPhone(phone, false) && !fault
           && HasEmail(t.users, email)) ==> o.response == Fail(400, "Email already registered"))
      && (o.response.status != 201 ==> o.db == t)
      && (o.response.status == 201 ==>
            o.db.users == t.users + [User(t.nextId, fullName, email, h.hash(password), phone, role, "")]
            && o.response.body["user"] == JObj(CreatedUser(t.nextId, fullName, email, phone, role)))
  {
    ByEmailIffStored(t.users, email);
  }

  method SignupHandler(db: Database, h: Hasher, fault: bool, filterEmail: string -> bool, m: Method,
                       fullName: Option<string>, email: Option<string>, password: Option<string>,
                       phone: Option<string>, role: Option<string>) returns (r: Response)
    requires db.Valid()
    modifies db
    ensures db.Valid()
    ensures Outcome(r, db.State()) == Signup(old(db.State()), h, fault, filterEmail, m, fullName, email, password, phone, role)
  {
    if m == Options {
      return Response(200, map[]);
    }
    if m != Post {
      return Fail(405, "Method not allowed");
    }
    if fullName.None? || email.None? || password.None? || phone.None? || role.None? {
      return Fail(400, "All fields are required");
    }
    var n := SanitizeInput(fullName.value);
    var e := SanitizeInput(email.value);
    var ph := SanitizeInput(phone.value);
    var ro := SanitizeInput(role.value);
    if !filterEmail(e) {
      return Fail(400, "Invalid email format");
    }
    if !PhpLongEnough(password.value) {
      return Fail(400, "Password must be at least 8 characters long");
    }
    if !ValidPhone(ph, false) {
      return Fail(400, "Invalid phone number format");
    }
    if fault {
      return Fail(500, "Database error");
    }
    var existing := db.Select((v: User) => v.email == e);
    if existing.Some? {
      return Fail(400, "Email already registered");
    }
    var id := db.RunInsert(n, e, h.hash(password.value), ph, ro);
    if id.None? {
      return Fail(500, "Failed to register user");
    }
    r := Response(201, map["message" := JStr("User registered successfully"),
                           "user" := JObj(CreatedUser(id.value, n, e, ph, ro))]);
  }

  // ------------------------------------------------------------ signin.php

  /** src/api/signin.php; `fault` is the failed `prepare`. */
  function Signin(t: Tables, h: Hasher, fault: bool, m: Method, email: Option<string>, password: Option<string>): Response {
    if m == Options then Response(200, map[])
    else if m != Post then Fail(405, "Method not allowed")
    else if email.None? || password.None? then Fail(400, "Email and password are required")
    else if fault then Fail(500, "Database error")
    else SigninFor(t, h, SanitizeInput(email.value), password.value)
  }

  /** The lookup and verification of signin.php, given the sanitised email. */
  function SigninFor(t: Tables, h: Hasher, email: string, password: string): Response {
    match ByEmail(t.users, email)
    case None => Fail(401, "Invalid credentials")
    case Some(u) =>
      if !h.verify(password, u.password) then Fail(401, "Invalid credentials")
      else Response(200, map["user" := JObj(Columns(u, SigninColumns))])
  }

  /** The gate: OPTIONS, other methods, a missing field; then the lookup runs
      on the sanitised email with the raw password. */
  lemma SigninGate(t: Tables, h: Hasher, fault: bool, m: Method, email: Option<string>, password: Option<string>)
    ensures m == Options ==> Signin(t, h, fault, m, email, password) == Response(200, map[])
    ensures m != Options && m != Post ==> Signin(t, h, fault, m, email, password) == Fail(405, "Method not allowed")
    ensures m == Post && (email.None? || password.None?) ==>
      Signin(t, h, fault, m, email, password) == Fail(400, "Email and password are required")
    ensures m == Post && email.Some? && password.Some? && !fault ==>
      Signin(t, h, fault, m, email, password) == SigninFor(t, h, SanitizeInput(email.value), password.value)
  {
  }

  /** Unknown email and wrong password share one 401; a 200 is the row with
      that email without its password. */
  lemma SigninOutcomes(t: Tables, h: Hasher, email: string, password: string)
    ensures var r := SigninFor(t, h, email, password);
      var u := ByEmail(t.users, email);
      (r.status == 401 <==> u.None? || !h.verify(password, u.value.password))
      && (r.status == 401 ==> r == Fail(401, "Invalid credentials"))
      && (r.status != 401 ==>
            (r.status == 200 && u.Some? && u.value.email == email
             && r.body == map["user" := JObj(Columns(u.value, SigninColumns))]
             && "password" !in r.body["user"].fields))
  {
  }

  /** A user that signup.php registered signs in through signin.php with the
      same (sanitised) email and the same raw password, given a sound hasher. */
  lemma SignupThenSignin(t: Tables, h: Hasher, filterEmail: string -> bool, fullName: string, email: string,
                         password: string, phone: string, role: string)
    requires t.Valid() && Sound(h)
    requires SignupFor(t, h, false, filterEmail, fullName, email, password, phone, role).response.status == 201
    ensures SigninFor(SignupFor(t, h, false, filterEmail, fullName, email, password, phone, role).db,
                      h, email, password).status == 200
  {
    SignupEffect(t, h, false, filterEmail, fullName, email, password, phone, role);
    var t' := SignupFor(t, h, false, filterEmail, fullName, email, password, phone, role).db;
    var u := t'.users[|t.users|];
    assert u in t'.users;
    EmailNamesOneRow(t'.users, t'.nextId, u);
    assert h.verify(password, h.hash(password));
  }

  // ---------------------------------------------------- profile_update.php

  /** src/api/profile_update.php. */
  function ProfileUpdate(t: Tables, filterEmail: string -> bool, m: Method, fullName: Option<string>,
                         email: Option<string>, phone: Option<string>): (o: Outcome)
    requires t.Valid()
    ensures o.db.Valid()
  {
    if m == Options then Outcome(Response(200, map[]), t)
    else if m != Put then Outcome(Fail(405, "Method not allowed"), t)
    else if fullName.None? || email.None? || phone.None? then Outcome(Fail(400, "All fields are required"), t)
    else ProfileUpdateFor(t, filterEmail, SanitizeInput(fullName.value), SanitizeInput(email.value),
                          SanitizeInput(phone.value))
  }

  /** What profile_update.php does with the sanitised fields. */
  function ProfileUpdateFor(t: Tables, filterEmail: string -> bool, fullName: string, email: string,
                            phone: string): (o: Outcome)
    requires t.Valid()
    ensures o.db.Valid()
  {
    if !filterEmail(email) then Outcome(Fail(400, "Invalid email format"), t)
    else if !ValidPhone(phone, false) then Outcome(Fail(400, "Invalid phone number format"), t)
    else if Find(t.users, ProjectServer.TakenByOther(email)).Some? then
      Outcome(Fail(400, "Email already taken by another user"), t)
    else match Update(t, ProjectServer.EmailIs(email), RootServer.SetProfile(fullName, email, phone))
      case None => Outcome(Fail(500, "Failed to update profile"), t)
      case Some(t') =>
        Outcome(Response(200, map["message" := JStr("Profile updated successfully"),
                                  "user" := JObj(map["full_name" := JStr(fullName), "email" := JStr(email),
                                                     "phone_number" := JStr(phone)])]), t')
  }

  /** The gate: OPTIONS, any method but PUT, a missing field; then the three
      fields are sanitised. */
  lemma ProfileUpdateGate(t: Tables, filterEmail: string -> bool, m: Method, fullName: Option<string>,
                          email: Option<string>, phone: Option<string>)
    requires t.Valid()
    ensures var o := ProfileUpdate(t, filterEmail, m, fullName, email, phone);
      (m == Options ==> o == Outcome(Response(200, map[]), t))
      && (m != Options && m != Put ==> o == Outcome(Fail(405, "Method not allowed"), t))
      && (m == Put && (fullName.None? || email.None? || phone.None?) ==>
            o == Outcome(Fail(400, "All fields are required"), t))
      && (m == Put && fullName.Some? && email.Some? && phone.Some? ==>
            o == ProfileUpdateFor(t, filterEmail, SanitizeInput(fullName.value), SanitizeInput(email.value),
                                  SanitizeInput(phone.value)))
  {
  }

  /** The conflict answer is never sent and no row's email, id, role or
      password changes; once both checks pass the update succeeds, answers
      with the given values, and rewrites name and phone only in the rows
      that already had that email. */
  lemma ProfileUpdateKeepsEmails(t: Tables, filterEmail: string -> bool, fullName: string, email: string,
                                 phone: string)
    requires t.Valid()
    ensures var o := ProfileUpdateFor(t, filterEmail, fullName, email, phone);
      o.response != Fail(400, "Email already taken by another user")
      && |o.db.users| == |t.users|
      && (forall k :: 0 <= k < |t.users| ==>
            (o.db.users[k].email == t.users[k].email && o.db.users[k].id == t.users[k].id
             && o.db.users[k].role == t.users[k].role && o.db.users[k].password == t.users[k].password))
      && (filterEmail(email) && ValidPhone(phone, false) ==>
            o.response.status == 200
            && o.response.body["user"] == JObj(map["full_name" := JStr(fullName), "email" := JStr(email),
                                                   "phone_number" := JStr(phone)])
            && forall k :: 0 <= k < |t.users| ==>
                 o.db.users[k] == if t.users[k].email == email
                                  then t.users[k].(fullName := fullName, phone := phone)
                                  else t.users[k])
  {
    var o := ProfileUpdateFor(t, filterEmail, fullName, email, phone);
    ProjectServer.ConflictUnreachable(t.users, email);
    var f := RootServer.SetProfile(fullName, email, phone);
    UpdateKeepingKeysSucceeds(t, ProjectServer.EmailIs(email), f);
    if o.db != t {
      assert o.db == Update(t, ProjectServer.EmailIs(email), f).value;
      forall k | 0 <= k < |t.users|
        ensures o.db.users[k].email == t.users[k].email && o.db.users[k].id == t.users[k].id
        ensures o.db.users[k].role == t.users[k].role && o.db.users[k].password == t.users[k].password
      {
        if ProjectServer.EmailIs(email)(t.users[k]) {
          assert o.db.users[k] == f(t.users[k]);
        }
      }
    }
  }

  method ProfileUpdateHandler(db: Database, filterEmail: string -> bool, m: Method, fullName: Option<string>,
                              email: Option<string>, phone: Option<string>) returns (r: Response)
    requires db.Valid()
    modifies db
    ensures db.Valid()
    ensures Outcome(r, db.State()) == ProfileUpdate(old(db.State()), filterEmail, m, fullName, email, phone)
  {
    if m == Options {
      return Response(200, map[]);
    }
    if m != Put {
      return Fail(405, "Method not allowed");
    }
    if fullName.None? || email.None? || phone.None? {
      return Fail(400, "All fields are required");
    }
    var n := SanitizeInput(fullName.value);
    var e := SanitizeInput(email.value);
    var ph := SanitizeInput(phone.value);
    if !filterEmail(e) {
      return Fail(400, "Invalid email format");
    }
    if !ValidPhone(ph, false) {
      return Fail(400, "Invalid phone number format");
    }
    var existing := db.Select(ProjectServer.TakenByOther(e));
    if existing.Some? {
      return Fail(400, "Email already taken by another user");
    }
    var ok := db.RunUpdate(ProjectServer.EmailIs(e), RootServer.SetProfile(n, e, ph));
    if !ok {
      return Fail(500, "Failed to update profile");
    }
    r := Response(200, map["message" := JStr("Profile updated successfully"),
                           "user" := JObj(map["full_name" := JStr(n), "email" := JStr(e), "phone_number" := JStr(ph)])]);
  }

  // --------------------------------------------------- change_password.php

  /** src/api/change_password.php. */
  function ChangePassword(t: Tables, h: Hasher, m: Method, email: Option<string>, current: Option<string>,
                          newPassword: Option<string>): (o: Outcome)
    requires t.Valid()
    ensures o.db.Valid()
  {
    if m == Options then Outcome(Response(200, map[]), t)
    else if m != Put then Outcome(Fail(405, "Method not allowed"), t)
    else if email.None? || current.None? || newPassword.None? then Outcome(Fail(400, "All fields are required"), t)
    else ChangePasswordFor(t, h, SanitizeInput(email.value), current.value, newPassword.value)
  }

  /** What change_password.php does with the sanitised email. */
  function ChangePasswordFor(t: Tables, h: Hasher, email: string, current: string, newPassword: string): (o: Outcome)
    requires t.Valid()
    ensures o.db.Valid()
  {
    if !PhpLongEnough(newPassword) then Outcome(Fail(400, "New password must be at least 8 characters long"), t)
    else match ByEmail(t.users, email)
      case None => Outcome(Fail(404, "User not found"), t)
      case Some(u) =>
        if !h.verify(current, u.password) then Outcome(Fail(401, "Current password is incorrect"), t)
        else match Update(t, (v: User) => v.id == u.id, SetPassword(h.hash(newPassword)))
          case None => Outcome(Fail(500, "Failed to update password"), t)
          case Some(t') => Outcome(Done(200, "Password updated successfully"), t')
  }

  /** The gate: OPTIONS, any method but PUT, a missing field; then the email
      is sanitised and both passwords are passed on as sent. */
  lemma ChangePasswordGate(t: Tables, h: Hasher, m: Method, email: Option<string>, current: Option<string>,
                           newPassword: Option<string>)
    requires t.Valid()
    ensures var o := ChangePassword(t, h, m, email, current, newPassword);
      (m == Options ==> o == Outcome(Response(200, map[]), t))
      && (m != Options && m != Put ==> o == Outcome(Fail(405, "Method not allowed"), t))
      && (m == Put && (email.None? || current.None? || newPassword.None?) ==>
            o == Outcome(Fail(400, "All fields are required"), t))
      && (m == Put && email.Some? && current.Some? && newPassword.Some? ==>
            o == ChangePasswordFor(t, h, SanitizeInput(email.value), current.value, newPassword.value))
  {
  }

  /** The length check comes before any lookup; anything but a 200 leaves the
      store as it was; an unknown email is 404; a 200 replaces the hash of
      the looked-up user's row and of no other. */
  lemma ChangePasswordEffect(t: Tables, h: Hasher, email: string, current: string, newPassword: string)
    requires t.Valid()
    ensures var o := ChangePasswordFor(t, h, email, current, newPassword);
      (o.response.status != 200 ==> o.db == t)
      && (!PhpLongEnough(newPassword) ==> o.response == Fail(400, "New password must be at least 8 characters long"))
      && (PhpLongEnough(newPassword) ==> (o.response.status == 404 <==> !HasEmail(t.users, email)))
      && (o.response.status == 200 ==>
            exists k :: 0 <= k < |t.users| && t.users[k].email == email
              && h.verify(current, t.users[k].password)
              && o.db.users == t.users[k := t.users[k].(password := h.hash(newPassword))])
  {
    var o := ChangePasswordFor(t, h, email, current, newPassword);
    ByEmailIffStored(t.users, email);
    if o.response.status == 200 {
      var u := ByEmail(t.users, email).value;
      var k :| 0 <= k < |t.users| && t.users[k] == u;
      UpdateOneRow(t, (v: User) => v.id == u.id, SetPassword(h.hash(newPassword)), k);
    }
  }

  method ChangePasswordHandler(db: Database, h: Hasher, m: Method, email: Option<string>, current: Option<string>,
                               newPassword: Option<string>) returns (r: Response)
    requires db.Valid()
    modifies db
    ensures db.Valid()
    ensures Outcome(r, db.State()) == ChangePassword(old(db.State()), h, m, email, current, newPassword)
  {
    if m == Options {
      return Response(200, map[]);
    }
    if m != Put {
      return Fail(405, "Method not allowed");
    }
    if email.None? || current.None? || newPassword.None? {
      return Fail(400, "All fields are required");
    }
    if !PhpLongEnough(newPassword.value) {
      return Fail(400, "New password must be at least 8 characters long");
    }
    var e := SanitizeInput(email.value);
    var row := db.Select((v: User) => v.email == e);
    if row.None? {
      return Fail(404, "User not found");
    }
    if !h.verify(current.value, row.value.password) {
      return Fail(401, "Current password is incorrect");
    }
    var id := row.value.id;
    var ok := db.RunUpdate((v: User) => v.id == id, SetPassword(h.hash(newPassword.value)));
    if !ok {
      return Fail(500, "Failed to update password");
    }
    r := Done(200, "Password updated successfully");
  }
}
