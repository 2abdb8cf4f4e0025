/** The Next.js API routes: src/pages/api/signup.ts and
    project/src/pages/api/signin.ts. Both answer OPTIONS and refuse other
    methods but POST before reading the body. */
module NextApi {
  import opened Wrappers
  import opened Text
  import opened Validation
  import opened Store
  import RootServer
  import ProjectServer

  /** The handler of src/pages/api/signup.ts. */
  function Signup(t: Tables, h: Hasher, fault: bool, m: Method, fullName: Option<string>, email: Option<string>,
                  password: Option<string>, phone: Option<string>, role: Option<string>): (o: Outcome)
    requires t.Valid()
    ensures o.db.Valid()
  {
    if m == Options then Outcome(Done(200, "OK"), t)
    else if m != Post then Outcome(Fail(405, "Method not allowed"), t)
    else if !Truthy(fullName) || !Truthy(email) || !Truthy(password) || !Truthy(phone) || !Truthy(role) then
      Outcome(Fail(400, "All fields are required"), t)
    else if !ValidEmail(email.value) then Outcome(Fail(400, "Invalid email format"), t)
    else if !JsLongEnough(password.value) then
      Outcome(Fail(400, "Password must be at least 8 characters long"), t)
    else if !ValidPhone(phone.value, true) then Outcome(Fail(400, "Invalid phone number format"), t)
    else if fault then Outcome(Fail(500, "Database operation failed"), t)
    else if ByEmail(t.users, email.value).Some? then Outcome(Fail(400, "Email already exists"), t)
    else match Insert(t, fullName.value, email.value, h.hash(password.value), phone.value, role.value)
      case None => Outcome(Fail(500, "Database operation failed"), t)
      case Some((t', _)) => Outcome(Done(200, "User registered successfully"), t')
  }

  /** OPTIONS and every other non-POST method are answered before any field
      is looked at, and touch nothing. */
  lemma SignupMethodGate(t: Tables, h: Hasher, fault: bool, m: Method, fullName: Option<string>, email: Option<string>,
                         password: Option<string>, phone: Option<string>, role: Option<string>)
    requires t.Valid() && m != Post
    ensures Signup(t, h, fault, m, fullName, email, password, phone, role)
         == Outcome(if m == Options then Done(200, "OK") else Fail(405, "Method not allowed"), t)
  {
  }

  /** For POST this route changes the store exactly as the Express signup does;
      it answers 200 where that answers 201, 'Email already exists' where that
      answers 'Email already registered', and 'Database operation failed' for
      a storage failure. Every other answer is the same. */
  lemma SignupMatchesExpress(t: Tables, h: Hasher, fault: bool, fullName: Option<string>, email: Option<string>,
                             password: Option<string>, phone: Option<string>, role: Option<string>)
    requires t.Valid()
    ensures var n := Signup(t, h, fault, Post, fullName, email, password, phone, role);
      var e := RootServer.Signup(t, h, fault, fullName, email, password, phone, role);
      n.db == e.db
      && (n.response.status == 200 <==> e.response.status == 201)
      && (e.response == Fail(400, "Email already registered") <==> n.response == Fail(400, "Email already exists"))
      && (e.response.status == 500 <==> n.response == Fail(500, "Database operation failed"))
      && (e.response.status == 400 && e.response != Fail(400, "Email already registered") ==> n.response == e.response)
  {
    if !Truthy(fullName) || !Truthy(email) || !Truthy(password) || !Truthy(phone) || !Truthy(role) {
    } else if !ValidEmail(email.value) || !JsLongEnough(password.value) || !ValidPhone(phone.value, true) {
    } else if fault {
    } else if ByEmail(t.users, email.value).Some? {
      assert Fail(400, "Email already registered") != Fail(400, "Email already exists");
    } else {
      match Insert(t, fullName.value, email.value, h.hash(password.value), phone.value, role.value)
      case None =>
      case Some(_) =>
    }
  }

  method SignupHandler(db: Database, h: Hasher, fault: bool, m: Method, fullName: Option<string>,
                       email: Option<string>, password: Option<string>, phone: Option<string>,
                       role: Option<string>) returns (r: Response)
    requires db.Valid()
    modifies db
    ensures db.Valid()
    ensures Outcome(r, db.State()) == Signup(old(db.State()), h, fault, m, fullName, email, password, phone, role)
  {
    if m == Options {
      return Done(200, "OK");
    }
    if m != Post {
      return Fail(405, "Method not allowed");
    }
    if !Truthy(fullName) || !Truthy(email) || !Truthy(password) || !Truthy(phone) || !Truthy(role) {
      return Fail(400, "All fields are required");
    }
    if !ValidEmail(email.value) {
      return Fail(400, "Invalid email format");
    }
    if !JsLongEnough(password.value) {
      return Fail(400, "Password must be at least 8 characters long");
    }
    if !ValidPhone(phone.value, true) {
      return Fail(400, "Invalid phone number format");
    }
    if fault {
      return Fail(500, "Database operation failed");
    }
    var existing := db.Select((v: User) => v.email == email.value);
    if existing.Some? {
      return Fail(400, "Email already exists");
    }
    var id := db.RunInsert(fullName.value, email.value, h.hash(password.value), phone.value, role.value);
    if id.None? {
      return Fail(500, "Database operation failed");
    }
    r := Done(200, "User registered successfully");
  }

  /** The handler of project/src/pages/api/signin.ts. */
  function Signin(t: Tables, h: Hasher, fault: bool, m: Method, email: Option<string>, password: Option<string>): Response {
    if m == Options then Response(200, map[])
    else if m != Post then Fail(405, "Method not allowed")
    else if !Truthy(email) || !Truthy(password) then Fail(400, "Email and password are required")
    else if !ValidEmail(email.value) then Fail(400, "Invalid email format")
    else if fault then Fail(500, "Database operation failed")
    else match ByEmail(t.users, email.value)
      case None => Fail(401, "Invalid email or password")
      case Some(u) =>
        if !h.verify(password.value, u.password) then Fail(401, "Invalid email or password")
        else Response(200, map["user" := JObj(Columns(u, WithoutPassword))])
  }

  /** The method gate, then the malformed email refused before any lookup
      (whatever the store holds); unknown email and wrong password share one
      401; and on a well-formed email the outcome is the Express signin's up
      to that message and the storage-failure message. */
  lemma SigninOutcomes(t: Tables, t2: Tables, h: Hasher, fault: bool, m: Method, email: Option<string>,
                       password: Option<string>)
    ensures m == Options ==> Signin(t, h, fault, m, email, password) == Response(200, map[])
    ensures m != Options && m != Post ==> Signin(t, h, fault, m, email, password) == Fail(405, "Method not allowed")
    ensures m == Post && Truthy(email) && Truthy(password) && !ValidEmail(email.value) ==>
      Signin(t, h, fault, m, email, password) == Fail(400, "Invalid email format")
      && Signin(t2, h, fault, m, email, password) == Signin(t, h, fault, m, email, password)
    ensures m == Post && Truthy(email) && Truthy(password) && ValidEmail(email.value) ==>
      var n := Signin(t, h, fault, m, email, password);
      var e := ProjectServer.Signin(t, h, fault, email, password);
      (n.status == e.status)
      && (n.status == 401 ==> n == Fail(401, "Invalid email or password"))
      && (n.status == 200 ==> n == e && "password" !in n.body["user"].fields)
  {
  }
}
