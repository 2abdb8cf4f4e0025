/** api/admin/profile.php (GET and PUT of one user by `?id=`) and
    api/admin/change-password.php. Both read the id with `intval` and treat
    0 as missing; the JSON body is a map of string fields, `None` when it
    does not decode. A PDO exception is `fault`; the exception's own message,
    which both scripts append to "Database error: ", is not modelled. */
module AdminProfile {
  import opened Wrappers
  import opened Store
  import opened PhpValues
  import opened Numerals
  import RootServer
  import Validation

  /** `isset($_GET['id']) ? intval($_GET['id']) : null`, with null read as 0
      the way `!$user_id` reads it. */
  function RequestId(id: Option<string>): int {
    if id.None? then 0 else PhpIntval(id.value)
  }

  /** `SELECT ... FROM users WHERE id = ?` for an integer that may be negative. */
  function RowById(us: seq<User>, id: int): (r: Option<User>)
    ensures r.Some? ==> r.value in us && r.value.id == id
    ensures r.None? <==> forall k :: 0 <= k < |us| ==> us[k].id != id
  {
    if id < 0 then None else ById(us, id)
  }

  /** The row with a stored id is the one found. */
  lemma RowByIdFindsStored(t: Tables, u: User)
    requires t.Valid() && u in t.users
    ensures RowById(t.users, u.id) == Some(u)
  {
    IdNamesOneRow(t.users, t.nextId, u);
  }

  /** The decimal text of a stored id is read back as that id. */
  lemma RequestIdOfDecimalText(n: nat)
    ensures RequestId(Some(DecimalText(n))) == n
  {
    IntvalOfDecimalText(n, "");
    assert DecimalText(n) + "" == DecimalText(n);
  }

  // ------------------------------------------------------------ profile.php

  const RequiredFields: seq<string> := ["full_name", "email", "phone_number"]

  /** `!isset($data[$field]) || empty($data[$field])`. */
  predicate Missing(data: map<string, string>, field: string) {
    field !in data || PhpEmpty(data[field])
  }

  /** The first field of `fields` that is missing from `data`. */
  function FirstMissing(data: map<string, string>, fields: seq<string>): (r: Option<string>)
    ensures r.None? <==> forall k :: 0 <= k < |fields| ==> !Missing(data, fields[k])
    ensures r.Some? ==> exists k :: (0 <= k < |fields| && fields[k] == r.value && Missing(data, r.value)
                                     && forall j :: 0 <= j < k ==> !Missing(data, fields[j]))
  {
    if fields == [] then None
    else if Missing(data, fields[0]) then Some(fields[0])
    else
      var r := FirstMissing(data, fields[1..]);
      assert forall j :: 0 <= j < |fields| - 1 ==> fields[1..][j] == fields[j + 1];
      r
  }

  /** The `foreach` of lines 46-53, stopping at the first missing field. */
  method CheckRequired(data: map<string, string>, fields: seq<string>) returns (r: Option<string>)
    ensures r == FirstMissing(data, fields)
  {
    var i := 0;
    while i < |fields|
      invariant 0 <= i <= |fields|
      invariant FirstMissing(data, fields) == FirstMissing(data, fields[i..])
    {
      assert fields[i..][1..] == fields[i + 1..];
      if Missing(data, fields[i]) {
        return Some(fields[i]);
      }
      i := i + 1;
    }
    return None;
  }

  /** The re-read row, or `false` when PDO's fetch finds none. */
  function RowJson(r: Option<User>): Json {
    if r.Some? then JObj(Fetched(r.value, RootServer.ProfileColumns)) else JBool(false)
  }

  /** api/admin/profile.php. */
  function Profile(t: Tables, fault: bool, m: Method, id: Option<string>, data: Option<map<string, string>>): (o: Outcome)
    requires t.Valid()
    ensures o.db.Valid()
  {
    var uid := RequestId(id);
    if uid == 0 then Outcome(Fail(400, "User ID is required"), t)
    else if fault then Outcome(Fail(500, "Database error: "), t)
    else if m == Get then
      match RowById(t.users, uid)
      case None => Outcome(Fail(404, "User not found"), t)
      case Some(u) => Outcome(Response(200, map["user" := JObj(Fetched(u, RootServer.ProfileColumns))]), t)
    else if m == Put then
      if data.None? || |data.value| == 0 then Outcome(Fail(400, "Invalid request data"), t)
      else match FirstMissing(data.value, RequiredFields)
        case Some(f) => Outcome(Fail(400, "Missing required field: " + f), t)
        case None =>
          RequiredPresent(data.value);
          ProfileWrite(t, uid, data.value)
    else Outcome(Fail(405, "Method not allowed"), t)
  }

  /** profile.php lines 56-77: the UPDATE of the three fields and the row
      read back after it. */
  function ProfileWrite(t: Tables, uid: int, d: map<string, string>): (o: Outcome)
    requires t.Valid() && "full_name" in d && "email" in d && "phone_number" in d
    ensures o.db.Valid()
  {
    match Update(t, (v: User) => v.id == uid, RootServer.SetProfile(d["full_name"], d["email"], d["phone_number"]))
    case None => Outcome(Fail(500, "Database error: "), t)
    case Some(t') =>
      Outcome(Response(200, map["message" := JStr("Profile updated successfully"),
                                "user" := RowJson(RowById(t'.users, uid))]), t')
  }

  /** The id is checked before the method: without a usable id every
      request, OPTIONS and DELETE included, is 400; with one, every method
      but GET and PUT is 405. */
  lemma ProfileIdBeforeMethod(t: Tables, fault: bool, m: Method, id: Option<string>, data: Option<map<string, string>>)
    requires t.Valid()
    ensures RequestId(id) == 0 ==> Profile(t, fault, m, id, data) == Outcome(Fail(400, "User ID is required"), t)
    ensures RequestId(id) != 0 && !fault && m != Get && m != Put ==>
      Profile(t, fault, m, id, data) == Outcome(Fail(405, "Method not allowed"), t)
  {
  }

  /** GET answers 404 for an id no row has, and otherwise that row's
      id, name, email, phone and role, never its password. */
  lemma ProfileGetAnswer(t: Tables, id: Option<string>)
    requires t.Valid() && RequestId(id) != 0
    ensures var o := Profile(t, false, Get, id, None);
      o.db == t
      && (o.response.status == 404 <==> forall k :: 0 <= k < |t.users| ==> t.users[k].id != RequestId(id))
      && (o.response.status != 404 ==>
            exists u :: u in t.users && u.id == RequestId(id)
              && o.response == Response(200, map["user" := JObj(Fetched(u, RootServer.ProfileColumns))]))
      && "password" !in RootServer.ProfileColumns
  {
    RootServer.ProfileColumnsHidePassword();
    var o := Profile(t, false, Get, id, None);
    match RowById(t.users, RequestId(id))
    case None =>
      assert o == Outcome(Fail(404, "User not found"), t);
    case Some(u) =>
      assert o == Outcome(Response(200, map["user" := JObj(Fetched(u, RootServer.ProfileColumns))]), t);
  }

  /** No required field missing means all three are there. */
  lemma RequiredPresent(d: map<string, string>)
    requires FirstMissing(d, RequiredFields).None?
    ensures "full_name" in d && "email" in d && "phone_number" in d
  {
    assert !Missing(d, RequiredFields[0]) && !Missing(d, RequiredFields[1]) && !Missing(d, RequiredFields[2]);
  }

  /** PUT names the first of full_name, email and phone_number that is unset
      or empty to PHP, "0" included, and changes nothing. */
  lemma ProfilePutMissingField(t: Tables, id: Option<string>, d: map<string, string>, f: string)
    requires t.Valid() && RequestId(id) != 0 && |d| > 0
    requires FirstMissing(d, RequiredFields) == Some(f)
    ensures Profile(t, false, Put, id, Some(d)) == Outcome(Fail(400, "Missing required field: " + f), t)
    ensures f in RequiredFields && (f !in d || d[f] == "" || d[f] == "0")
  {
  }

  /** PUT checks neither the email's form nor its uniqueness: any non-empty
      values are written to the row with that id, and the answer carries the
      row read back. Only a UNIQUE violation stops it, as a 500. */
  lemma ProfilePutWritesAnything(t: Tables, u: User, d: map<string, string>)
    requires t.Valid() && u in t.users
    requires "full_name" in d && "email" in d && "phone_number" in d
    requires !PhpEmpty(d["full_name"]) && !PhpEmpty(d["email"]) && !PhpEmpty(d["phone_number"])
    ensures var o := Profile(t, false, Put, Some(DecimalText(u.id)), Some(d));
      var u' := u.(fullName := d["full_name"], email := d["email"], phone := d["phone_number"]);
      (HasEmailElsewhere(t.users, u.id, d["email"]) ==> o == Outcome(Fail(500, "Database error: "), t))
      && (!HasEmailElsewhere(t.users, u.id, d["email"]) ==>
            o.response == Response(200, map["message" := JStr("Profile updated successfully"),
                                            "user" := JObj(Fetched(u', RootServer.ProfileColumns))])
            && exists k :: 0 <= k < |t.users| && t.users[k] == u && o.db.users == t.users[k := u'])
  {
    RequestIdOfDecimalText(u.id);
    assert FirstMissing(d, RequiredFields).None?;
    assert |d| > 0 by { assert "email" in d.Keys; }
    assert Profile(t, false, Put, Some(DecimalText(u.id)), Some(d)) == ProfileWrite(t, u.id, d);
    ProfileWriteRows(t, u, d);
  }

  /** The write step of ProfilePutWritesAnything, for the stored row `u`. */
  lemma ProfileWriteRows(t: Tables, u: User, d: map<string, string>)
    requires t.Valid() && u in t.users
    requires "full_name" in d && "email" in d && "phone_number" in d
    ensures var o := ProfileWrite(t, u.id, d);
      var u' := u.(fullName := d["full_name"], email := d["email"], phone := d["phone_number"]);
      (HasEmailElsewhere(t.users, u.id, d["email"]) ==> o == Outcome(Fail(500, "Database error: "), t))
      && (!HasEmailElsewhere(t.users, u.id, d["email"]) ==>
            o.response == Response(200, map["message" := JStr("Profile updated successfully"),
                                            "user" := JObj(Fetched(u', RootServer.ProfileColumns))])
            && exists k :: 0 <= k < |t.users| && t.users[k] == u && o.db.users == t.users[k := u'])
  {
    var p := (v: User) => v.id == u.id;
    var f := RootServer.SetProfile(d["full_name"], d["email"], d["phone_number"]);
    var u' := f(u);
    var k :| 0 <= k < |t.users| && t.users[k] == u;
    var us := MapWhere(t.users, p, f);
    UpdateOneRow(t, p, f, k);
    if HasEmailElsewhere(t.users, u.id, d["email"]) {
      var j :| 0 <= j < |t.users| && t.users[j].id != u.id && t.users[j].email == d["email"];
      assert j != k && us[j].email == us[k].email;
      if j < k { assert !Schema(us, t.nextId); } else { assert !Schema(us, t.nextId); }
    } else {
      assert Schema(us, t.nextId) by {
        forall i, j | 0 <= i < j < |us| ensures us[i].id != us[j].id && us[i].email != us[j].email {
          if i == k { assert t.users[j].id != u.id; }
          if j == k { assert t.users[i].id != u.id; }
        }
      }
      var t' := t.(users := us);
      assert RowById(t'.users, u.id) == Some(u') by {
        assert u' in t'.users by { assert t'.users[k] == u'; }
        IdNamesOneRow(t'.users, t'.nextId, u');
      }
    }
  }

  /** Another row holds this email. */
  predicate HasEmailElsewhere(us: seq<User>, id: nat, email: string) {
    exists j :: 0 <= j < |us| && us[j].id != id && us[j].email == email
  }

  method ProfileHandler(db: Database, fault: bool, m: Method, id: Option<string>, data: Option<map<string, string>>)
    returns (r: Response)
    requires db.Valid()
    modifies db
    ensures db.Valid()
    ensures Outcome(r, db.State()) == Profile(old(db.State()), fault, m, id, data)
  {
    var uid := RequestId(id);
    if uid == 0 {
      return Fail(400, "User ID is required");
    }
    if fault {
      return Fail(500, "Database error: ");
    }
    if m == Get {
      var row := db.Select((v: User) => v.id == uid);
      assert row == RowById(db.users, uid);
      if row.None? {
        return Fail(404, "User not found");
      }
      return Response(200, map["user" := JObj(Fetched(row.value, RootServer.ProfileColumns))]);
    } else if m == Put {
      if data.None? || |data.value| == 0 {
        return Fail(400, "Invalid request data");
      }
      var missing := CheckRequired(data.value, RequiredFields);
      if missing.Some? {
        return Fail(400, "Missing required field: " + missing.value);
      }
      var d := data.value;
      RequiredPresent(d);
      var ok := db.RunUpdate((v: User) => v.id == uid, RootServer.SetProfile(d["full_name"], d["email"], d["phone_number"]));
      if !ok {
        return Fail(500, "Database error: ");
      }
      var row := db.Select((v: User) => v.id == uid);
      assert row == RowById(db.users, uid);
      return Response(200, map["message" := JStr("Profile updated successfully"), "user" := RowJson(row)]);
    } else {
      return Fail(405, "Method not allowed");
    }
  }

  // ---------------------------------------------------- change-password.php

  /** api/admin/change-password.php. */
  function ChangePassword(t: Tables, h: Hasher, fault: bool, m: Method, id: Option<string>,
                          data: Option<map<string, string>>): (o: Outcome)
    requires t.Valid()
    ensures o.db.Valid()
  {
    var uid := RequestId(id);
    if m != Post then Outcome(Fail(405, "Method not allowed"), t)
    else if uid == 0 then Outcome(Fail(400, "User ID is required"), t)
    else if data.None? || |data.value| == 0 then Outcome(Fail(400, "Invalid request data"), t)
    else if "current_password" !in data.value || "new_password" !in data.value then
      Outcome(Fail(400, "Current password and new password are required"), t)
    else if fault then Outcome(Fail(500, "Database error: "), t)
    else match RowById(t.users, uid)
      case None => Outcome(Fail(404, "User not found"), t)
      case Some(u) =>
        if !h.verify(data.value["current_password"], u.password) then
          Outcome(Fail(400, "Current password is incorrect"), t)
        else match Update(t, (v: User) => v.id == uid, SetPassword(h.hash(data.value["new_password"])))
          case None => Outcome(Fail(500, "Database error: "), t)
          case Some(t') => Outcome(Done(200, "Password updated successfully"), t')
  }

  /** A body carrying both password fields. */
  function PasswordRequest(current: string, newPassword: string): map<string, string> {
    map["current_password" := current, "new_password" := newPassword]
  }

  /** A wrong current password is 400 and changes nothing. */
  lemma ChangePasswordWrongCurrent(t: Tables, h: Hasher, u: User, current: string, newPassword: string)
    requires t.Valid() && u in t.users && !h.verify(current, u.password)
    ensures ChangePassword(t, h, false, Post, Some(DecimalText(u.id)), Some(PasswordRequest(current, newPassword)))
         == Outcome(Fail(400, "Current password is incorrect"), t)
  {
    RequestIdOfDecimalText(u.id);
    RowByIdFindsStored(t, u);
    var data := PasswordRequest(current, newPassword);
    assert |data| > 0 by { assert "new_password" in data.Keys; }
  }

  /** With the current password, any new password, the empty one included,
      replaces that user's hash and nothing else. */
  lemma ChangePasswordEffect(t: Tables, h: Hasher, u: User, current: string, newPassword: string)
    requires t.Valid() && u in t.users && h.verify(current, u.password)
    ensures var o := ChangePassword(t, h, false, Post, Some(DecimalText(u.id)), Some(PasswordRequest(current, newPassword)));
      o.response == Done(200, "Password updated successfully")
      && exists k :: 0 <= k < |t.users| && t.users[k] == u
           && o.db.users == t.users[k := u.(password := h.hash(newPassword))]
  {
    RequestIdOfDecimalText(u.id);
    RowByIdFindsStored(t, u);
    var data := PasswordRequest(current, newPassword);
    assert |data| > 0 by { assert "new_password" in data.Keys; }
    var k :| 0 <= k < |t.users| && t.users[k] == u;
    UpdateOneRow(t, (v: User) => v.id == u.id, SetPassword(h.hash(newPassword)), k);
  }

  /** The same wrong current password that server.js answers with 401 is a
      400 here. */
  lemma WrongPasswordStatusDiverges(t: Tables, h: Hasher, u: User, current: string, newPassword: string)
    requires t.Valid() && u in t.users && !h.verify(current, u.password)
    requires current != "" && Validation.JsLongEnough(newPassword)
    ensures ChangePassword(t, h, false, Post, Some(DecimalText(u.id)),
                           Some(PasswordRequest(current, newPassword))).response.status == 400
    ensures RootServer.ChangePassword(t, h, false, Some(DecimalText(u.id)), Some(current), Some(newPassword)).response.status == 401
  {
    ChangePasswordWrongCurrent(t, h, u, current, newPassword);
    SqlIdOfDecimalText(u.id);
    var p := RootServer.IdIs(DecimalText(u.id));
    assert p(u);
    var k :| 0 <= k < |t.users| && t.users[k] == u;
    var found := Find(t.users, p);
    assert found.Some?;
    assert found.value.id == u.id;
    IdNamesOneRow(t.users, t.nextId, u);
    IdNamesOneRow(t.users, t.nextId, found.value);
    assert found.value == u;
  }

  method ChangePasswordHandler(db: Database, h: Hasher, fault: bool, m: Method, id: Option<string>,
                               data: Option<map<string, string>>) returns (r: Response)
    requires db.Valid()
    modifies db
    ensures db.Valid()
    ensures Outcome(r, db.State()) == ChangePassword(old(db.State()), h, fault, m, id, data)
  {
    if m != Post {
      return Fail(405, "Method not allowed");
    }
    var uid := RequestId(id);
    if uid == 0 {
      return Fail(400, "User ID is required");
    }
    if data.None? || |data.value| == 0 {
      return Fail(400, "Invalid request data");
    }
    var d := data.value;
    if "current_password" !in d || "new_password" !in d {
      return Fail(400, "Current password and new password are required");
    }
    if fault {
      return Fail(500, "Database error: ");
    }
    var row := db.Select((v: User) => v.id == uid);
    assert row == RowById(db.users, uid);
    if row.None? {
      return Fail(404, "User not found");
    }
    if !h.verify(d["current_password"], row.value.password) {
      return Fail(400, "Current password is incorrect");
    }
    var ok := db.RunUpdate((v: User) => v.id == uid, SetPassword(h.hash(d["new_password"])));
    if !ok {
      return Fail(500, "Database error: ");
    }
    r := Done(200, "Password updated successfully");
  }
}
