/** The browser side of signing in, src/context/AuthContext.tsx: the user the
    pages read, the `user` entry of localStorage, and the role-to-dashboard
    mapping. JSON parsing of the stored entry is summarised by `Stored`; the
    server's answer to a login request by `LoginReply`. */
module ClientAuth {
  import opened Wrappers
  import opened Text

  /** A user object as the pages read it. A field that is absent is read as
      its empty value (0, ""), which JavaScript truthiness treats the same. */
  datatype ClientUser = ClientUser(id: int, email: string, role: string, fullName: Option<string>, name: Option<string>)

  /** `localStorage.getItem('user')`: no entry, text `JSON.parse` rejects, or
      a user. */
  datatype Stored = NoEntry | Unparsable | Entry(user: ClientUser)

  /** `getDashboardPath(role)`: the role is lower-cased first. */
  function DashboardPath(role: string): (p: string)
    ensures p == "/admin/dashboard" <==> Lower(role) == "admin"
    ensures p == "/guide/dashboard" <==> Lower(role) == "guide"
    ensures p == "/tourist/dashboard" <==> Lower(role) == "tourist"
    ensures p == "/" <==> Lower(role) !in {"admin", "guide", "tourist"}
  {
    var r := Lower(role);
    if r == "admin" then "/admin/dashboard"
    else if r == "guide" then "/guide/dashboard"
    else if r == "tourist" then "/tourist/dashboard"
    else "/"
  }

  /** The mapping ignores case. */
  lemma DashboardPathIgnoresCase(role: string)
    ensures DashboardPath(role) == DashboardPath(Lower(role))
  {
    LowerIdempotent(role);
  }

  /** JavaScript `o || fallback` for an optional string: an absent or empty
      value gives the fallback. */
  function OrElse(o: Option<string>, fallback: string): (r: string)
    ensures o.Some? && o.value != "" ==> r == o.value
    ensures !(o.Some? && o.value != "") ==> r == fallback
  {
    if o.Some? && o.value != "" then o.value else fallback
  }

  /** What a login request came back with. */
  datatype LoginReply =
    | NetworkFailure(message: string)     // `fetch` itself throws
    | NotJson                             // content-type is not application/json
    | Refused(error: Option<string>)      // not ok; the body's `error`, if any
    | Accepted(user: Option<ClientUser>)  // ok; the body's `user`, if any

  /** The message `login` sets for a failed reply. */
  function LoginError(reply: LoginReply): (e: Option<string>)
    ensures e.None? <==> reply.Accepted? && reply.user.Some?
  {
    match reply
    case NetworkFailure(m) => Some(m)
    case NotJson => Some("Server returned an invalid response format")
    case Refused(e) => Some(OrElse(e, "Login failed"))
    case Accepted(u) => if u.None? then Some("Invalid response format from server") else None
  }

  /** The provider's state: `user`, `loading`, `error`, the stored entry and
      the last path navigated to. */
  class AuthContext {
    var user: Option<ClientUser>
    var loading: bool
    var error: Option<string>
    var storage: Stored
    var location: string

    /** The first render: no user, loading. */
    constructor (storage: Stored, location: string)
      ensures this.user.None? && this.loading && this.error.None?
      ensures this.storage == storage && this.location == location
    {
      this.user := None;
      this.loading := true;
      this.error := None;
      this.storage := storage;
      this.location := location;
    }

    /** `isAuthenticated: !!user`. */
    function IsAuthenticated(): (b: bool)
      reads this
      ensures b <==> user.Some?
    {
      user.Some?
    }

    /** The mount effect: a stored user is taken over, an unparsable entry
        is removed, and loading ends either way. */
    method Mount()
      modifies this
      ensures !loading && error == old(error) && location == old(location)
      ensures old(storage).Entry? ==> user == Some(old(storage).user) && storage == old(storage)
      ensures old(storage).Unparsable? ==> user == old(user) && storage == NoEntry
      ensures old(storage).NoEntry? ==> user == old(user) && storage == NoEntry
    {
      match storage {
        case Entry(u) => user := Some(u);
        case Unparsable => storage := NoEntry;
        case NoEntry =>
      }
      loading := false;
    }

    /** `login(email, password)` once the request has come back with `reply`.
        Every failure is caught and becomes `error`; nothing is rethrown. */
    method Login(reply: LoginReply)
      modifies this
      ensures !loading && error == LoginError(reply)
      ensures error.None? ==> (user == reply.user && storage == Entry(reply.user.value)
                               && location == DashboardPath(reply.user.value.role))
      ensures error.Some? ==> user == old(user) && storage == old(storage) && location == old(location)
    {
      loading := true;
      error := None;
      var e := LoginError(reply);
      if e.Some? {
        error := e;
      } else {
        var u := reply.user.value;
        user := Some(u);
        storage := Entry(u);
        location := DashboardPath(u.role);
      }
      loading := false;
    }

    /** `logout()`. */
    method Logout()
      modifies this
      ensures user.None? && storage == NoEntry && location == "/"
      ensures loading == old(loading) && error == old(error)
    {
      user := None;
      storage := NoEntry;
      location := "/";
    }
  }
}
