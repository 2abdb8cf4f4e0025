/** The PDO endpoints under api/ that deal with sign-in: auth/login.php,
    auth/reset-password.php and the `verifyToken` of middleware/auth.php.
    The PHP session is a `Session` object whose only entry the code uses is
    `user_id`. A PDO exception is the `fault` parameter. */
module PdoAuth {
  import opened Wrappers
  import opened Text
  import opened Store

  /** `$_SESSION`, as far as `user_id` goes. */
  class Session {
    var userId: Option<nat>

    constructor ()
      ensures userId.None?
    {
      userId := None;
    }
  }

  /** `$formattedUser` of login.php, time stamps left out. The id is the
      string PDO fetched, which names the same row when sent back. */
  function FormatUser(u: User): (o: map<string, Json>)
    ensures o.Keys == {"id", "email", "role", "first_name", "last_name", "phone_number"}
    ensures o["id"].JStr? && SqlId(o["id"].s) == Some(u.id)
  {
    SqlIdOfDecimalText(u.id);
    var parts := ExplodeTwo(u.fullName);
    map["id" := FetchedValue(u, "id"), "email" := JStr(u.email), "role" := JStr(Lower(u.role)),
        "first_name" := JStr(parts[0]), "last_name" := JStr(if |parts| == 2 then parts[1] else ""),
        "phone_number" := JStr(u.phone)]
  }

  /** The answer of login.php and the session's `user_id` afterwards. */
  datatype LoginOutcome = LoginOutcome(response: Response, userId: Option<nat>)

  /** api/auth/login.php; `session` is `user_id` before the call. */
  function Login(t: Tables, h: Hasher, fault: bool, m: Method, email: Option<string>, password: Option<string>,
                 session: Option<nat>): LoginOutcome
  {
    if m != Post then LoginOutcome(Fail(405, "Method not allowed"), session)
    else if email.None? || password.None? then LoginOutcome(Fail(400, "Email and password are required"), session)
    else if fault then LoginOutcome(Fail(500, "Database error"), session)
    else match ByEmail(t.users, email.value)
      case None => LoginOutcome(Fail(401, "Invalid credentials"), session)
      case Some(u) =>
        if !h.verify(password.value, u.password) then LoginOutcome(Fail(401, "Invalid credentials"), session)
        else LoginOutcome(Response(200, map["user" := JObj(FormatUser(u))]), Some(u.id))
  }

  /** Every method but POST is refused first (OPTIONS included); unknown
      email and wrong password share one 401; only a 200 writes the session,
      and then with the id of the stored user carrying that email and a
      verifying hash; the name is split at the first space, the role is
      lower-cased and no password is sent. */
  lemma LoginOutcomes(t: Tables, h: Hasher, fault: bool, m: Method, email: Option<string>,
                      password: Option<string>, session: Option<nat>)
    ensures var o := Login(t, h, fault, m, email, password, session);
      (m != Post ==> o == LoginOutcome(Fail(405, "Method not allowed"), session))
      && (o.response.status != 200 ==> o.userId == session)
      && (o.response.status == 401 ==> o.response == Fail(401, "Invalid credentials"))
      && (m == Post && email.Some? && password.Some? && !fault ==>
            (o.response.status == 401 <==>
               ByEmail(t.users, email.value).None?
               || !h.verify(password.value, ByEmail(t.users, email.value).value.password)))
      && (o.response.status == 200 ==>
            var u := ByEmail(t.users, email.value).value;
            u in t.users && u.email == email.value && h.verify(password.value, u.password)
            && o.userId == Some(u.id)
            && o.response.body == map["user" := JObj(FormatUser(u))]
            && FormatUser(u)["first_name"] == JStr(FirstWord(u.fullName))
            && FormatUser(u)["last_name"] == JStr(AfterFirstSpace(u.fullName))
            && FormatUser(u)["role"] == JStr(Lower(u.role))
            && "password" !in FormatUser(u))
  {
    if m == Post && email.Some? && password.Some? && !fault && ByEmail(t.users, email.value).Some? {
      FormatUserNames(ByEmail(t.users, email.value).value);
    }
  }

  /** The login answer splits the name as the Express server does, lower-cases
      the role and leaves the password out. */
  lemma FormatUserNames(u: User)
    ensures FormatUser(u)["first_name"] == JStr(FirstWord(u.fullName))
    ensures FormatUser(u)["last_name"] == JStr(AfterFirstSpace(u.fullName))
    ensures FormatUser(u)["role"] == JStr(Lower(u.role))
    ensures "password" !in FormatUser(u)
  {
    ExplodeTwoAgrees(u.fullName);
  }

  method LoginHandler(db: Database, session: Session, h: Hasher, fault: bool, m: Method,
                      email: Option<string>, password: Option<string>) returns (r: Response)
    modifies session
    ensures LoginOutcome(r, session.userId) == Login(db.State(), h, fault, m, email, password, old(session.userId))
  {
    if m != Post {
      return Fail(405, "Method not allowed");
    }
    if email.None? || password.None? {
      return Fail(400, "Email and password are required");
    }
    if fault {
      return Fail(500, "Database error");
    }
    var e := email.value;
    var row := db.Select((v: User) => v.email == e);
    if row.None? {
      return Fail(401, "Invalid credentials");
    }
    if !h.verify(password.value, row.value.password) {
      return Fail(401, "Invalid credentials");
    }
    session.userId := Some(row.value.id);
    r := Response(200, map["user" := JObj(FormatUser(row.value))]);
  }

  // ------------------------------------------------------ reset-password.php

  /** api/auth/reset-password.php. */
  function ResetPassword(t: Tables, h: Hasher, fault: bool, m: Method, email: Option<string>,
                         newPassword: Option<string>): (o: Outcome)
    requires t.Valid()
    ensures o.db.Valid()
  {
    if m != Post then Outcome(Fail(405, "Method not allowed"), t)
    else if email.None? || newPassword.None? then Outcome(Fail(400, "Email and new password are required"), t)
    else if fault then Outcome(Fail(500, "An error occurred while resetting the password"), t)
    else match ByEmail(t.users, email.value)
      case None => Outcome(Fail(404, "User not found"), t)
      case Some(u) =>
        match Update(t, (v: User) => v.id == u.id, SetPassword(h.hash(newPassword.value)))
        case None => Outcome(Fail(500, "An error occurred while resetting the password"), t)
        case Some(t') =>
          Outcome(Response(200, map["message" := JStr("Password updated successfully"), "success" := JBool(true)]), t')
  }

  /** For any stored email the password becomes the hash of the new one,
      whatever it is: no current password is asked for and no length is
      checked. Only that row changes; an unknown email is 404 and changes
      nothing. */
  lemma ResetNeedsNoCredential(t: Tables, h: Hasher, email: string, newPassword: string)
    requires t.Valid()
    ensures var o := ResetPassword(t, h, false, Post, Some(email), Some(newPassword));
      (!HasEmail(t.users, email) <==> o == Outcome(Fail(404, "User not found"), t))
      && (HasEmail(t.users, email) ==>
            o.response.status == 200
            && exists k :: 0 <= k < |t.users| && t.users[k].email == email
                 && o.db.users == t.users[k := t.users[k].(password := h.hash(newPassword))])
  {
    ByEmailIffStored(t.users, email);
    if HasEmail(t.users, email) {
      var u := ByEmail(t.users, email).value;
      var p := (v: User) => v.id == u.id;
      UpdateKeepingKeysSucceeds(t, p, SetPassword(h.hash(newPassword)));
      var o := ResetPassword(t, h, false, Post, Some(email), Some(newPassword));
      var k :| 0 <= k < |t.users| && t.users[k] == u;
      var want := t.users[k := u.(password := h.hash(newPassword))];
      assert |o.db.users| == |want|;
      forall j | 0 <= j < |t.users| ensures o.db.users[j] == want[j] {
        if j != k {
          assert t.users[j].id != u.id;
        }
      }
    }
  }

  /** After a reset the new password signs in through login.php, given a
      sound hasher. */
  lemma ResetThenLogin(t: Tables, h: Hasher, email: string, newPassword: string, session: Option<nat>)
    requires t.Valid() && Sound(h) && HasEmail(t.users, email)
    ensures var t' := ResetPassword(t, h, false, Post, Some(email), Some(newPassword)).db;
      Login(t', h, false, Post, Some(email), Some(newPassword), session).response.status == 200
  {
    ResetNeedsNoCredential(t, h, email, newPassword);
    var t' := ResetPassword(t, h, false, Post, Some(email), Some(newPassword)).db;
    var k :| 0 <= k < |t.users| && t.users[k].email == email
             && t'.users == t.users[k := t.users[k].(password := h.hash(newPassword))];
    var u := t'.users[k];
    assert u in t'.users;
    EmailNamesOneRow(t'.users, t'.nextId, u);
    assert ByEmail(t'.users, email) == Some(u);
    assert h.verify(newPassword, u.password);
  }

  method ResetPasswordHandler(db: Database, h: Hasher, fault: bool, m: Method, email: Option<string>,
                              newPassword: Option<string>) returns (r: Response)
    requires db.Valid()
    modifies db
    ensures db.Valid()
    ensures Outcome(r, db.State()) == ResetPassword(old(db.State()), h, fault, m, email, newPassword)
  {
    if m != Post {
      return Fail(405, "Method not allowed");
    }
    if email.None? || newPassword.None? {
      return Fail(400, "Email and new password are required");
    }
    if fault {
      return Fail(500, "An error occurred while resetting the password");
    }
    var e := email.value;
    var row := db.Select((v: User) => v.email == e);
    if row.None? {
      return Fail(404, "User not found");
    }
    var id := row.value.id;
    var ok := db.RunUpdate((v: User) => v.id == id, SetPassword(h.hash(newPassword.value)));
    if !ok {
      return Fail(500, "An error occurred while resetting the password");
    }
    r := Response(200, map["message" := JStr("Password updated successfully"), "success" := JBool(true)]);
  }

  // ------------------------------------------------------------ verifyToken

  /** The columns `verifyToken` selects. */
  const TokenColumns: set<string> := {"id", "full_name", "email", "role"}

  /** `verifyToken()`: the row of the session's user, or null. */
  function VerifyToken(t: Tables, fault: bool, session: Option<nat>): (r: Option<map<string, Json>>)
    ensures r.Some? ==> session.Some? && !fault && "password" !in r.value && r.value.Keys == TokenColumns
  {
    if session.None? || fault then None
    else match ById(t.users, session.value)
      case None => None
      case Some(u) => Some(Fetched(u, TokenColumns))
  }

  /** null without a session user, for an id no row has, and on any
      exception; otherwise exactly that user's id, name, email and role. */
  lemma VerifyTokenIff(t: Tables, fault: bool, session: Option<nat>)
    requires t.Valid()
    ensures VerifyToken(t, fault, session).Some? <==>
      session.Some? && !fault && exists u :: u in t.users && u.id == session.value
    ensures VerifyToken(t, fault, session).Some? ==>
      exists u :: u in t.users && u.id == session.value && VerifyToken(t, fault, session) == Some(Fetched(u, TokenColumns))
  {
    if session.Some? && !fault {
      if u :| u in t.users && u.id == session.value {
        IdNamesOneRow(t.users, t.nextId, u);
      }
    }
  }

  /** After a successful login the middleware finds that same user. */
  lemma LoginThenVerify(t: Tables, h: Hasher, email: string, password: string, session: Option<nat>)
    requires t.Valid()
    requires Login(t, h, false, Post, Some(email), Some(password), session).response.status == 200
    ensures var s := Login(t, h, false, Post, Some(email), Some(password), session).userId;
      VerifyToken(t, false, s) == Some(Fetched(ByEmail(t.users, email).value, TokenColumns))
  {
    var u := ByEmail(t.users, email).value;
    IdNamesOneRow(t.users, t.nextId, u);
  }
}
