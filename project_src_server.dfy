/** project/src/server.js: a second copy of the signup and signin of
    project/server.js. Signup inserts into the users table; signin reads. */
module ProjectSrcServer {
  import opened Wrappers
  import opened Validation
  import opened Store
  import RootServer
  import ProjectServer

  /** POST /api/signup: the same chain of checks and the same insert as the
      other two Express servers. */
  method SignupHandler(db: Database, h: Hasher, fault: bool, fullName: Option<string>, email: Option<string>,
                       password: Option<string>, phone: Option<string>, role: Option<string>) returns (r: Response)
    requires db.Valid()
    modifies db
    ensures db.Valid()
    ensures Outcome(r, db.State()) == RootServer.Signup(old(db.State()), h, fault, fullName, email, password, phone, role)
  {
    r := RootServer.SignupHandler(db, h, fault, fullName, email, password, phone, role);
  }

  /** A second signup with the same email, after a first that succeeded,
      answers 400 and inserts nothing. */
  lemma SecondSignupRefused(t: Tables, h: Hasher, fullName: Option<string>, email: Option<string>,
                            password: Option<string>, phone: Option<string>, role: Option<string>,
                            fullName2: Option<string>, password2: Option<string>, phone2: Option<string>,
                            role2: Option<string>)
    requires t.Valid()
    requires RootServer.Signup(t, h, false, fullName, email, password, phone, role).response.status == 201
    requires Truthy(fullName2) && Truthy(password2) && Truthy(phone2) && Truthy(role2)
    requires JsLongEnough(password2.value) && ValidPhone(phone2.value, true)
    ensures var t' := RootServer.Signup(t, h, false, fullName, email, password, phone, role).db;
      RootServer.Signup(t', h, false, fullName2, email, password2, phone2, role2)
      == Outcome(Fail(400, "Email already registered"), t')
  {
    RootServer.SignupEffect(t, h, false, fullName, email, password, phone, role);
    var t' := RootServer.Signup(t, h, false, fullName, email, password, phone, role).db;
    assert t'.users[|t.users|].email == email.value;
    RootServer.SignupRefusesRegisteredEmail(t', h, fullName2, email, password2, phone2, role2);
  }
}
