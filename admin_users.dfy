/** api/admin/users.php: the admin check, the normalisation of the query
    string, the SQL text and parameter list it builds, and the pagination
    figures it answers with. */
module AdminUsers {
  import opened Wrappers
  import opened Text
  import opened Store
  import opened PhpValues
  import PdoAuth
  import Numerals
  import opened ListOps

  // ------------------------------------------------------------ admin check

  /** The guard as written: a verified user whose `role` is exactly 'admin'. */
  predicate AdminAsWritten(user: Option<map<string, Json>>) {
    user.Some? && "role" in user.value && user.value["role"] == JStr("admin")
  }

  /** The stored roles are the ENUM values 'Admin', 'Guide' and 'Tourist', so
      the guard as written refuses every session, signed in or not. */
  lemma NobodyPassesAsWritten(t: Tables, fault: bool, session: Option<nat>)
    requires t.Valid()
    ensures !AdminAsWritten(PdoAuth.VerifyToken(t, fault, session))
  {
    var v := PdoAuth.VerifyToken(t, fault, session);
    PdoAuth.VerifyTokenIff(t, fault, session);
    if v.Some? {
      var u :| u in t.users && u.id == session.value && v == Some(Fetched(u, PdoAuth.TokenColumns));
      assert SchemaRole(u.role);
      assert v.value["role"] == JStr(u.role);
    }
  }

  lemma LowerOfRoles()
    ensures Lower("Admin") == "admin" && Lower("Guide") != "admin" && Lower("Tourist") != "admin"
  {
    assert Lower("Guide")[0] == 'g';
  }

  /** The guard as intended: the role is 'admin' ignoring case. */
  predicate IsAdmin(user: Option<map<string, Json>>) {
    user.Some? && "role" in user.value && user.value["role"].JStr? && Lower(user.value["role"].s) == "admin"
  }

  /** The intended guard admits exactly a session whose user is stored with
      the role 'Admin'. */
  lemma IsAdminIffAdminSession(t: Tables, fault: bool, session: Option<nat>)
    requires t.Valid()
    ensures IsAdmin(PdoAuth.VerifyToken(t, fault, session)) <==>
      session.Some? && !fault && exists u :: u in t.users && u.id == session.value && u.role == "Admin"
  {
    var v := PdoAuth.VerifyToken(t, fault, session);
    PdoAuth.VerifyTokenIff(t, fault, session);
    LowerOfRoles();
    if v.Some? {
      var u :| u in t.users && u.id == session.value && v == Some(Fetched(u, PdoAuth.TokenColumns));
      assert v.value["role"] == JStr(u.role);
      IdNamesOneRow(t.users, t.nextId, u);
      forall w | w in t.users && w.id == session.value ensures w == u {
        IdNamesOneRow(t.users, t.nextId, w);
      }
    }
  }

  // ---------------------------------------------------------- normalisation

  const AllowedSortFields: seq<string> := ["full_name", "role", "phone_number", "email", "created_at"]

  /** The query string after normalisation. */
  datatype ListQuery = ListQuery(role: string, page: int, limit: int, sort: string, order: string, search: string)

  /** `isset($_GET[p]) ? (int)$_GET[p] : default`. */
  function IntParam(p: Option<string>, default: int): int {
    if p.Some? then PhpIntval(p.value) else default
  }

  /** Lines 17-33: defaults for absent parameters, `(int)` for page and limit,
      and the sort column and order forced into their whitelists. */
  function Normalize(role: Option<string>, page: Option<string>, limit: Option<string>, sort: Option<string>,
                     order: Option<string>, search: Option<string>): (q: ListQuery)
    ensures q.sort in AllowedSortFields && (q.order == "ASC" || q.order == "DESC")
    ensures q.sort == (if sort.Some? && sort.value in AllowedSortFields then sort.value else "full_name")
    ensures q.order == if order.Some? && Upper(order.value) in ["ASC", "DESC"] then Upper(order.value) else "ASC"
    ensures q.role == role.GetOr("all") && q.search == search.GetOr("")
    ensures q.page == IntParam(page, 1) && q.limit == IntParam(limit, 10)
  {
    var s := sort.GetOr("full_name");
    var o := if order.Some? then Upper(order.value) else "ASC";
    ListQuery(role.GetOr("all"),
              IntParam(page, 1),
              IntParam(limit, 10),
              if s in AllowedSortFields then s else "full_name",
              if o in ["ASC", "DESC"] then o else "ASC",
              search.GetOr(""))
  }

  /** The order is matched after upper-casing, so any spelling of asc or desc is kept. */
  lemma OrderIgnoresCase()
    ensures Normalize(None, None, None, None, Some("desc"), None).order == "DESC"
    ensures Normalize(None, None, None, None, Some("Asc"), None).order == "ASC"
    ensures Normalize(None, None, None, Some("password"), Some("up"), None).sort == "full_name"
  {
    assert Upper("desc") == "DESC";
    assert Upper("Asc") == "ASC";
    assert Upper("up") == "UP";
  }

  // ---------------------------------------------------------------- the SQL

  /** A bound parameter. */
  datatype Param = PStr(s: string) | PInt(n: int)

  /** Statement text as PDO sees it: literal text and `?` placeholders. */
  datatype SqlPart = Text(s: string) | Hole

  type Sql = seq<SqlPart>

  /** The statement as a string. */
  function Render(q: Sql): string {
    if q == [] then "" else (if q[0].Hole? then "?" else q[0].s) + Render(q[1..])
  }

  const SelectBase: Sql := [Text("SELECT id, full_name, email, role, phone_number, created_at FROM users WHERE 1=1")]
  const CountBase: Sql := [Text("SELECT COUNT(*) as total FROM users WHERE 1=1")]
  const RoleClause: Sql := [Text(" AND role = "), Hole]
  const SearchClause: Sql :=
    [Text(" AND (full_name LIKE "), Hole, Text(" OR email LIKE "), Hole, Text(" OR phone_number LIKE "), Hole, Text(")")]
  const PageClause: Sql := [Text(" LIMIT "), Hole, Text(" OFFSET "), Hole]

  /** `($page - 1) * $limit`. */
  function Offset(q: ListQuery): int {
    (q.page - 1) * q.limit
  }

  /** A query with the WHERE conditions appended. */
  function WithFilters(base: Sql, q: ListQuery): Sql {
    var withRole := if q.role != "all" then base + RoleClause else base;
    if !PhpEmpty(q.search) then withRole + SearchClause else withRole
  }

  /** The values for the conditions' placeholders, in order. */
  function FilterParams(q: ListQuery): seq<Param> {
    (if q.role != "all" then [PStr(q.role)] else [])
    + (if !PhpEmpty(q.search) then [PStr("%" + q.search + "%"), PStr("%" + q.search + "%"), PStr("%" + q.search + "%")] else [])
  }

  /** `" ORDER BY $sort $order"`. */
  function OrderBy(q: ListQuery): Sql {
    [Text(" ORDER BY " + q.sort + " " + q.order)]
  }

  /** The listing query. */
  function ListSql(q: ListQuery): Sql {
    WithFilters(SelectBase, q) + OrderBy(q) + PageClause
  }

  /** The count query. */
  function CountSql(q: ListQuery): Sql {
    WithFilters(CountBase, q)
  }

  /** All values bound to the listing query. */
  function ListParams(q: ListQuery): seq<Param> {
    FilterParams(q) + [PInt(q.limit), PInt(Offset(q))]
  }

  /** The number of placeholders in a statement. */
  function Placeholders(q: Sql): nat {
    multiset(q)[Hole]
  }

  /** Lines 39-64, statement by statement. */
  method BuildQuery(q: ListQuery) returns (query: Sql, countQuery: Sql, params: seq<Param>)
    ensures query == ListSql(q) && countQuery == CountSql(q) && params == ListParams(q)
  {
    query := SelectBase;
    countQuery := CountBase;
    params := [];
    if q.role != "all" {
      query := query + RoleClause;
      countQuery := countQuery + RoleClause;
      params := params + [PStr(q.role)];
    }
    if !PhpEmpty(q.search) {
      query := query + SearchClause;
      countQuery := countQuery + SearchClause;
      var searchParam := PStr("%" + q.search + "%");
      params := params + [searchParam, searchParam, searchParam];
    }
    query := query + OrderBy(q);
    query := query + PageClause;
    params := params + [PInt(q.limit)];
    params := params + [PInt(Offset(q))];
  }

  /** Every placeholder of the listing query has a value and no value is
      left over; the count query, run with all but the last two values
      (line 68), has a placeholder for each of the values it gets. */
  lemma ParamsFitPlaceholders(q: ListQuery)
    ensures Placeholders(ListSql(q)) == |ListParams(q)|
    ensures Placeholders(CountSql(q)) == |ListParams(q)| - 2
  {
    FilterPlaceholders(SelectBase, q);
    FilterPlaceholders(CountBase, q);
    assert Placeholders(SelectBase) == 0 && Placeholders(CountBase) == 0;
    TailPlaceholders(WithFilters(SelectBase, q), q);
  }

  /** The values the count query gets are the condition values; the last
      two are the limit and the offset. */
  lemma CountQueryGetsFilterParams(q: ListQuery)
    ensures ListParams(q)[..|ListParams(q)| - 2] == FilterParams(q)
    ensures ListParams(q)[|ListParams(q)| - 2..] == [PInt(q.limit), PInt((q.page - 1) * q.limit)]
  {
    var ps := ListParams(q);
    assert ps[..|ps| - 2] == FilterParams(q);
  }

  /** ORDER BY brings no placeholder and the LIMIT clause two. */
  lemma TailPlaceholders(ws: Sql, q: ListQuery)
    ensures Placeholders(ws + OrderBy(q) + PageClause) == Placeholders(ws) + 2
  {
    assert multiset(ws + OrderBy(q) + PageClause) == multiset(ws) + multiset(OrderBy(q)) + multiset(PageClause);
    assert Placeholders(PageClause) == 2;
  }

  /** The conditions bring one placeholder per condition value. */
  lemma FilterPlaceholders(base: Sql, q: ListQuery)
    ensures Placeholders(WithFilters(base, q)) == Placeholders(base) + |FilterParams(q)|
  {
    var withRole := if q.role != "all" then base + RoleClause else base;
    assert multiset(base + RoleClause) == multiset(base) + multiset(RoleClause);
    assert multiset(withRole + SearchClause) == multiset(withRole) + multiset(SearchClause);
  }

  /** No request value reaches the statement text: two requests with the
      same filters switched on, and the same sort and order, run the same
      SQL whatever their role and search values. */
  lemma SqlIgnoresValues(q1: ListQuery, q2: ListQuery)
    requires (q1.role == "all") == (q2.role == "all") && PhpEmpty(q1.search) == PhpEmpty(q2.search)
    requires q1.sort == q2.sort && q1.order == q2.order
    ensures ListSql(q1) == ListSql(q2) && CountSql(q1) == CountSql(q2)
  {
  }

  // ------------------------------------------------------------- the rows

  /** PHP `ceil($a / $b)` for integers, the float division done exactly. */
  function CeilDiv(a: int, b: int): (r: int)
    requires b != 0
    ensures b > 0 ==> (r - 1) * b < a <= r * b
    ensures b < 0 ==> r * b <= a < (r - 1) * b
  {
    if b > 0 then -((-a) / b) else -(a / (-b))
  }

  /** The rows both queries select: the role filter, and the search as a
      substring of the name, email or phone (`LIKE '%term%'`). */
  predicate Selected(q: ListQuery, u: User) {
    (q.role == "all" || u.role == q.role)
    && (PhpEmpty(q.search) || Includes(u.fullName, q.search) || Includes(u.email, q.search) || Includes(u.phone, q.search))
  }

  /** `COUNT(*)` of the selected rows. */
  function CountSelected(us: seq<User>, q: ListQuery): (n: nat)
    ensures n <= |us|
  {
    if us == [] then 0 else (if Selected(q, us[0]) then 1 else 0) + CountSelected(us[1..], q)
  }

  /** The rows of the listing query before `LIMIT`, in table order. */
  function SelectedRows(us: seq<User>, q: ListQuery): seq<User> {
    Filter(us, (u: User) => Selected(q, u))
  }

  /** The count query counts exactly the rows the listing query selects. */
  lemma {:induction false} CountIsSelectedRows(us: seq<User>, q: ListQuery)
    ensures CountSelected(us, q) == |SelectedRows(us, q)|
  {
    if us != [] {
      CountIsSelectedRows(us[1..], q);
    }
  }

  /** `LIMIT limit OFFSET offset`: the rows from `offset` on, at most `limit` of them. */
  function PageOf(s: seq<User>, offset: nat, limit: nat): (r: seq<User>)
    ensures |r| == if offset >= |s| then 0 else if limit < |s| - offset then limit else |s| - offset
    ensures forall k :: 0 <= k < |r| ==> r[k] == s[offset + k]
  {
    if offset >= |s| then [] else if limit < |s| - offset then s[offset..offset + limit] else s[offset..]
  }

  /** Two consecutive pages make up the page of their joint size: paging
      by `limit` loses and repeats no row. */
  lemma PagesJoin(s: seq<User>, offset: nat, limit: nat, more: nat)
    ensures PageOf(s, offset, limit) + PageOf(s, offset + limit, more) == PageOf(s, offset, limit + more)
  {
    var a := PageOf(s, offset, limit);
    var b := PageOf(s, offset + limit, more);
    var c := PageOf(s, offset, limit + more);
    assert |a + b| == |c|;
    forall k | 0 <= k < |c| ensures (a + b)[k] == c[k] {
      if k >= |a| {
        assert (a + b)[k] == b[k - |a|];
      }
    }
  }

  /** The columns of the listing query that rows carry here (`created_at` is
      not modelled). */
  const ListColumns: set<string> := {"id", "full_name", "email", "role", "phone_number"}

  // ---------------------------------------------------- binding the values

  /** A signed integer as PHP converts it to a string. */
  function IntString(n: int): (r: string)
    ensures r != []
  {
    if n < 0 then "-" + Numerals.DecimalText(-n) else Numerals.DecimalText(n)
  }

  /** `$stmt->execute($params)` binds every value as a string (PDO::PARAM_STR);
      with the emulated prepares PDO uses by default for MySQL, each is
      written into the statement as a quoted literal. */
  function BindAsStrings(ps: seq<Param>): (r: seq<Param>)
    ensures |r| == |ps| && forall k :: 0 <= k < |r| ==> r[k].PStr?
  {
    if ps == [] then [] else [PStr(if ps[0].PInt? then IntString(ps[0].n) else ps[0].s)] + BindAsStrings(ps[1..])
  }

  /** MySQL's grammar takes only a non-negative integer literal after `LIMIT`
      and `OFFSET`: a quoted string or a negative number is a syntax error. */
  predicate LimitAccepts(p: Param) {
    p.PInt? && p.n >= 0
  }

  /** The listing statement, bound with `ps`, is accepted by the server. */
  predicate ListRuns(ps: seq<Param>) {
    |ps| >= 2 && LimitAccepts(ps[|ps| - 2]) && LimitAccepts(ps[|ps| - 1])
  }

  /** Bound as integers, the listing statement runs exactly when the limit
      and the offset are non-negative. */
  lemma ListRunsIff(q: ListQuery)
    ensures ListRuns(ListParams(q)) <==> q.limit >= 0 && Offset(q) >= 0
  {
    CountQueryGetsFilterParams(q);
  }

  /** Bound as strings, as line 74 does, the listing statement never runs. */
  lemma QuotedLimitNeverRuns(q: ListQuery)
    ensures !ListRuns(BindAsStrings(ListParams(q)))
  {
  }

  // ------------------------------------------------------------- the answer

  /** The script from line 15 on, given the values the listing statement is
      bound with. A PDO exception is the "Database error: " answer (the
      exception text is not modelled). Under PHP 8 a limit of 0 reaches the
      division at line 83, whose DivisionByZeroError is not an Exception:
      the script stops there, and since database.php:9-10 turns
      `display_errors` on, PHP prints the error under the status 200 already
      in force. */
  function ListFrom(t: Tables, q: ListQuery, bound: seq<Param>): Answer {
    if !ListRuns(bound) then Sent(Fail(500, "Database error: "))
    else if q.limit == 0 then Crashed(200, "DivisionByZeroError")
    else
      var total := CountSelected(t.users, q);
      var rows := PageOf(SelectedRows(t.users, q), bound[|bound| - 1].n, bound[|bound| - 2].n);
      Sent(Response(200, map["users" := JList(FetchedList(rows, ListColumns)),
                              "total" := JInt(total), "page" := JInt(q.page), "limit" := JInt(q.limit),
                              "totalPages" := JInt(CeilDiv(total, q.limit))]))
  }

  /** Past the guard, with the values bound as integers: a database error for
      a negative limit or offset, the printed error for a limit of 0, and
      otherwise the page of selected rows from the offset on, at most a
      limit of them, the count of all selected rows as total, and the least
      number of pages that holds them. */
  lemma ListFromOutcomes(t: Tables, q: ListQuery)
    ensures var a := ListFrom(t, q, ListParams(q));
      var rows := SelectedRows(t.users, q);
      (q.limit < 0 || Offset(q) < 0 ==> a == Sent(Fail(500, "Database error: ")))
      && (q.limit == 0 ==> a == Crashed(200, "DivisionByZeroError"))
      && (q.limit > 0 && Offset(q) >= 0 ==>
            a.Sent? && a.response.status == 200
            && a.response.body["total"] == JInt(|rows|)
            && a.response.body["users"] == JList(FetchedList(PageOf(rows, Offset(q), q.limit), ListColumns))
            && a.response.body["totalPages"].JInt?
            && (a.response.body["totalPages"].n - 1) * q.limit < |rows| <= a.response.body["totalPages"].n * q.limit)
  {
    ListRunsIff(q);
    CountIsSelectedRows(t.users, q);
    CountQueryGetsFilterParams(q);
  }

  /** users.php as written but for the guard (the intended one; see
      `AdminAsWritten`): the values are bound by `execute($params)`. */
  function ListUsersAsWritten(t: Tables, fault: bool, session: Option<nat>, role: Option<string>, page: Option<string>,
                              limit: Option<string>, sort: Option<string>, order: Option<string>,
                              search: Option<string>): Answer
  {
    if !IsAdmin(PdoAuth.VerifyToken(t, fault, session)) then Sent(Fail(403, "Unauthorized access"))
    else
      var q := Normalize(role, page, limit, sort, order, search);
      ListFrom(t, q, BindAsStrings(ListParams(q)))
  }

  /** Whatever the query string, an admin's request fails with a database
      error: the quoted limit never parses. */
  lemma AdminListAlwaysFails(t: Tables, fault: bool, session: Option<nat>, role: Option<string>, page: Option<string>,
                             limit: Option<string>, sort: Option<string>, order: Option<string>,
                             search: Option<string>)
    requires IsAdmin(PdoAuth.VerifyToken(t, fault, session))
    ensures ListUsersAsWritten(t, fault, session, role, page, limit, sort, order, search) == Sent(Fail(500, "Database error: "))
  {
    QuotedLimitNeverRuns(Normalize(role, page, limit, sort, order, search));
  }

  /** users.php with the limit and offset bound as integers. */
  function ListUsers(t: Tables, fault: bool, session: Option<nat>, role: Option<string>, page: Option<string>,
                     limit: Option<string>, sort: Option<string>, order: Option<string>,
                     search: Option<string>): Answer
  {
    if !IsAdmin(PdoAuth.VerifyToken(t, fault, session)) then Sent(Fail(403, "Unauthorized access"))
    else
      var q := Normalize(role, page, limit, sort, order, search);
      ListFrom(t, q, ListParams(q))
  }

  /** Only a session of a stored 'Admin' user gets past the guard; past it
      the answer is the one `ListFromOutcomes` describes. */
  lemma ListUsersOutcomes(t: Tables, fault: bool, session: Option<nat>, role: Option<string>, page: Option<string>,
                          limit: Option<string>, sort: Option<string>, order: Option<string>, search: Option<string>)
    requires t.Valid()
    ensures var a := ListUsers(t, fault, session, role, page, limit, sort, order, search);
      var q := Normalize(role, page, limit, sort, order, search);
      (a == Sent(Fail(403, "Unauthorized access")) <==>
         !(session.Some? && !fault && exists u :: u in t.users && u.id == session.value && u.role == "Admin"))
      && (a != Sent(Fail(403, "Unauthorized access")) ==> a == ListFrom(t, q, ListParams(q)))
  {
    IsAdminIffAdminSession(t, fault, session);
    var q := Normalize(role, page, limit, sort, order, search);
    ListFromNeverRefuses(t, q, ListParams(q));
  }

  /** Past the guard no answer is the 403. */
  lemma ListFromNeverRefuses(t: Tables, q: ListQuery, bound: seq<Param>)
    ensures ListFrom(t, q, bound).Sent? ==> ListFrom(t, q, bound).response.status != 403
  {
  }

  /** From page 1 on, with a positive limit, the offset is not negative. */
  lemma OffsetNotNegative(q: ListQuery)
    requires q.page >= 1 && q.limit > 0
    ensures Offset(q) >= 0
  {
  }

  /** Each row an admin's page lists is a stored row meeting the filters,
      without the password column, with its id as the string PDO fetches. */
  lemma ListedRowsAreSelected(t: Tables, q: ListQuery, k: nat)
    requires q.limit > 0 && Offset(q) >= 0
    requires k < |PageOf(SelectedRows(t.users, q), Offset(q), q.limit)|
    ensures var u := PageOf(SelectedRows(t.users, q), Offset(q), q.limit)[k];
      u in t.users && Selected(q, u)
      && FetchedList(PageOf(SelectedRows(t.users, q), Offset(q), q.limit), ListColumns)[k] == JObj(Fetched(u, ListColumns))
      && "password" !in Fetched(u, ListColumns)
      && Fetched(u, ListColumns)["id"] == JStr(Numerals.DecimalText(u.id))
  {
    var rows := SelectedRows(t.users, q);
    var u := PageOf(rows, Offset(q), q.limit)[k];
    assert u == rows[Offset(q) + k];
    assert u in multiset(rows);
  }

  /** A limit of 0, or one `(int)` reads as 0, stops the script at the
      division: PHP prints the DivisionByZeroError under status 200 and no
      JSON is sent. */
  lemma ZeroLimitIsFatal(t: Tables, session: Option<nat>, limit: string)
    requires t.Valid() && PhpIntval(limit) == 0
    requires IsAdmin(PdoAuth.VerifyToken(t, false, session))
    ensures ListUsers(t, false, session, None, None, Some(limit), None, None, None) == Crashed(200, "DivisionByZeroError")
  {
    ListFromOutcomes(t, Normalize(None, None, Some(limit), None, None, None));
  }
}
