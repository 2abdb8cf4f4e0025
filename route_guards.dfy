/** The route guards and layouts of the two React front ends: what each
    renders for a given user, and what its effects do to storage and the
    location. src/components/: PrivateRoute, AdminRoute, TouristRoute,
    GuideRoute, ProtectedRoute, AdminLayout, TouristLayout;
    project/src/components/: ProtectedRoute, AdminLayout. */
module RouteGuards {
  import opened Wrappers
  import opened Text
  import opened ClientAuth

  /** What a guard renders. `Redirect` is a `<Navigate>` with its `replace`
      flag and the `from` and `message` of its state. */
  datatype View =
    | Spinner
    | Redirect(to: string, replace: bool, from: Option<string>, message: Option<string>)
    | Children
    | Outlet

  const SignInMessage := "Please sign in to access this page"
  const NoPermissionMessage := "You do not have permission to access this page"

  // ---------------------------------------------------------- PrivateRoute

  /** Some allowed role equals the user's role, both lower-cased. */
  predicate RoleAllowed(allowed: seq<string>, role: string) {
    exists k :: 0 <= k < |allowed| && Lower(allowed[k]) == Lower(role)
  }

  /** `PrivateRoute`. */
  function PrivateRoute(loading: bool, user: Option<ClientUser>, allowed: seq<string>, hasChildren: bool): (v: View)
    ensures loading <==> v == Spinner
    ensures v.Redirect? ==> v.replace && v.from.None? && v.message.None?
  {
    if loading then Spinner
    else if user.None? then Redirect("/login", true, None, None)
    else if !RoleAllowed(allowed, user.value.role) then Redirect("/", true, None, None)
    else if hasChildren then Children else Outlet
  }

  /** Once loading is over: no user goes to /login, a user whose role is not
      allowed goes to '/', and a user is admitted exactly when the role
      matches an allowed one ignoring case. */
  lemma PrivateRouteDecision(user: Option<ClientUser>, allowed: seq<string>, hasChildren: bool)
    ensures var v := PrivateRoute(false, user, allowed, hasChildren);
      (user.None? <==> v == Redirect("/login", true, None, None))
      && ((v == Children || v == Outlet) <==> user.Some? && RoleAllowed(allowed, user.value.role))
      && (v == Children ==> hasChildren)
      && (user.Some? && !RoleAllowed(allowed, user.value.role) ==> v == Redirect("/", true, None, None))
  {
  }

  /** Role case does not matter on either side. */
  lemma PrivateRouteIgnoresCase(u: ClientUser)
    ensures PrivateRoute(false, Some(u), ["admin"], false) == PrivateRoute(false, Some(u), ["ADMIN"], false)
  {
    assert Lower("admin") == Lower("ADMIN");
    assert RoleAllowed(["admin"], u.role) <==> Lower("admin") == Lower(u.role) by {
      assert ["admin"][0] == "admin";
    }
    assert RoleAllowed(["ADMIN"], u.role) <==> Lower("ADMIN") == Lower(u.role) by {
      assert ["ADMIN"][0] == "ADMIN";
    }
  }

  // ---------------------------------------- guards that read localStorage

  /** The mount effect that AdminRoute, TouristRoute, GuideRoute and
      AdminLayout share: the parsed entry becomes `localUser`; an entry
      that does not parse is removed. */
  datatype MountResult = MountResult(localUser: Option<ClientUser>, storage: Stored)

  function ReadStoredUser(s: Stored): (r: MountResult)
    ensures s.Entry? ==> r == MountResult(Some(s.user), s)
    ensures !s.Entry? ==> r == MountResult(None, NoEntry)
  {
    match s
    case Entry(u) => MountResult(Some(u), s)
    case _ => MountResult(None, NoEntry)
  }

  /** `localUser || user`: the stored user wins over the context's. */
  function CurrentUser(localUser: Option<ClientUser>, user: Option<ClientUser>): (c: Option<ClientUser>)
    ensures localUser.Some? ==> c == localUser
    ensures localUser.None? ==> c == user
  {
    if localUser.Some? then localUser else user
  }

  /** `AdminRoute`, with `isLoading` true until its mount effect ran. */
  function AdminRoute(isLoading: bool, current: Option<ClientUser>, path: string): View {
    if isLoading then Spinner
    else if current.None? then Redirect("/login", true, Some(path), Some(SignInMessage))
    else if !(current.value.role == "Admin" || Lower(current.value.role) == "admin") then
      Redirect(DashboardPath(current.value.role), true, None, None)
    else Outlet
  }

  /** After loading: no user goes to /login carrying the path and the sign-in
      message; a user is admitted exactly when the role is 'admin' ignoring
      case; anyone else is sent to the dashboard of their own role. */
  lemma AdminRouteDecision(current: Option<ClientUser>, path: string)
    ensures var v := AdminRoute(false, current, path);
      (current.None? <==> v == Redirect("/login", true, Some(path), Some(SignInMessage)))
      && (v == Outlet <==> current.Some? && Lower(current.value.role) == "admin")
      && (current.Some? && Lower(current.value.role) != "admin" ==>
            v == Redirect(DashboardPath(current.value.role), true, None, None))
  {
    LowerOfAdmin();
  }

  lemma LowerOfAdmin()
    ensures Lower("Admin") == "admin"
  {
  }

  /** The guard of TouristRoute and GuideRoute: only the exact role passes. */
  function ExactRoleRoute(required: string, current: Option<ClientUser>, path: string): View {
    if current.None? then Redirect("/login", true, Some(path), Some(SignInMessage))
    else if current.value.role != required then
      Redirect(DashboardPath(current.value.role), true, None, Some(NoPermissionMessage))
    else Outlet
  }

  /** `TouristRoute`. */
  function TouristRoute(current: Option<ClientUser>, path: string): View {
    ExactRoleRoute("Tourist", current, path)
  }

  /** `GuideRoute`. */
  function GuideRoute(current: Option<ClientUser>, path: string): View {
    ExactRoleRoute("Guide", current, path)
  }

  /** Only 'Tourist' itself is admitted; every other role, 'tourist'
      included, is sent to the dashboard its role maps to, which for
      'tourist' is the tourist dashboard itself. */
  lemma TouristRouteIsCaseSensitive(current: Option<ClientUser>, path: string)
    ensures TouristRoute(current, path) == Outlet <==> current.Some? && current.value.role == "Tourist"
    ensures current.Some? && current.value.role == "tourist" ==>
      TouristRoute(current, path) == Redirect("/tourist/dashboard", true, None, Some(NoPermissionMessage))
    ensures current.None? ==> TouristRoute(current, path) == Redirect("/login", true, Some(path), Some(SignInMessage))
  {
    assert Lower("tourist") == "tourist";
  }

  /** Likewise for 'Guide'. */
  lemma GuideRouteIsCaseSensitive(current: Option<ClientUser>, path: string)
    ensures GuideRoute(current, path) == Outlet <==> current.Some? && current.value.role == "Guide"
    ensures current.Some? && current.value.role == "guide" ==>
      GuideRoute(current, path) == Redirect("/guide/dashboard", true, None, Some(NoPermissionMessage))
    ensures current.None? ==> GuideRoute(current, path) == Redirect("/login", true, Some(path), Some(SignInMessage))
  {
    assert Lower("guide") == "guide";
  }

  // -------------------------------------------------------- ProtectedRoute

  /** src/components/ProtectedRoute.tsx: any user passes, whatever the role. */
  function ProtectedRoute(user: Option<ClientUser>, path: string): (v: View)
    ensures user.None? <==> v == Redirect("/login", true, Some(path), Some(SignInMessage))
    ensures user.Some? <==> v == Outlet
  {
    if user.None? then Redirect("/login", true, Some(path), Some(SignInMessage)) else Outlet
  }

  /** What project/src/components/ProtectedRoute.tsx renders and what it does
      to storage and the location. */
  datatype GuardEffect = GuardEffect(view: View, storage: Stored, navigateTo: Option<string>)

  /** The stored user lacks a truthy id, email or role. */
  predicate Incomplete(u: ClientUser) {
    u.id == 0 || u.email == "" || u.role == ""
  }

  /** project/src/components/ProtectedRoute.tsx. */
  function StoredProtectedRoute(s: Stored): GuardEffect {
    match s
    case NoEntry => GuardEffect(Redirect("/signin", true, None, Some(SignInMessage)), s, None)
    case Unparsable => GuardEffect(Redirect("/signin", true, None, Some(SignInMessage)), NoEntry, None)
    case Entry(u) =>
      if Incomplete(u) then GuardEffect(Outlet, NoEntry, Some("/signin"))
      else GuardEffect(Outlet, s, None)
  }

  /** An unparsable entry is removed and treated as no user; an incomplete
      user is removed and the app moves to /signin; any complete user passes
      whatever the role. */
  lemma StoredProtectedRouteOutcomes(s: Stored)
    ensures var g := StoredProtectedRoute(s);
      (g.view == Outlet <==> s.Entry?)
      && (!s.Entry? ==> g.view == Redirect("/signin", true, None, Some(SignInMessage)) && g.storage == NoEntry
                        && g.navigateTo.None?)
      && (s.Entry? && Incomplete(s.user) ==> g.storage == NoEntry && g.navigateTo == Some("/signin"))
      && (s.Entry? && !Incomplete(s.user) ==> g.storage == s && g.navigateTo.None?)
  {
  }

  // ---------------------------------------------------------------- layouts

  /** src/components/AdminLayout.tsx, its redirect effect: `navigate('/')`
      unless the role is exactly 'admin'. */
  function AdminLayoutNavigation(current: Option<ClientUser>): (n: Option<string>)
    ensures n.None? <==> current.Some? && current.value.role == "admin"
    ensures n.Some? ==> n.value == "/"
  {
    if current.None? || current.value.role != "admin" then Some("/") else None
  }

  /** The role the schema stores, 'Admin', is sent away by this layout while
      AdminRoute admits it. */
  lemma AdminLayoutRejectsStoredAdmin(u: ClientUser, path: string)
    requires u.role == "Admin"
    ensures AdminLayoutNavigation(Some(u)) == Some("/")
    ensures AdminRoute(false, Some(u), path) == Outlet
  {
  }

  /** `currentUser?.full_name || currentUser?.name || 'Admin'`. */
  function DisplayName(current: Option<ClientUser>): (n: string)
    ensures n != ""
    ensures current.Some? && Truthy(current.value.fullName) ==> n == current.value.fullName.value
    ensures !(current.Some? && Truthy(current.value.fullName)) && current.Some? && Truthy(current.value.name) ==>
      n == current.value.name.value
    ensures !(current.Some? && (Truthy(current.value.fullName) || Truthy(current.value.name))) ==> n == "Admin"
  {
    if current.Some? && Truthy(current.value.fullName) then current.value.fullName.value
    else if current.Some? && Truthy(current.value.name) then current.value.name.value
    else "Admin"
  }

  predicate Truthy(o: Option<string>) {
    o.Some? && o.value != ""
  }

  /** project/src/components/AdminLayout.tsx, its effect: where it navigates.
      The children are rendered in every case. */
  function StoredAdminLayoutNavigation(s: Stored): (n: Option<string>)
    ensures n.None? <==> s.Entry? && s.user.role == "Admin"
    ensures !s.Entry? ==> n == Some("/login")
    ensures s.Entry? && s.user.role != "Admin" ==> n == Some("/")
  {
    match s
    case NoEntry => Some("/login")
    case Unparsable => Some("/login")
    case Entry(u) => if u.role != "Admin" then Some("/") else None
  }

  /** The two admin layouts disagree on every user: each admits exactly one
      spelling of the role, and the spellings differ. */
  lemma AdminLayoutsDisagree(u: ClientUser)
    ensures AdminLayoutNavigation(Some(u)).None? ==> StoredAdminLayoutNavigation(Entry(u)) == Some("/")
    ensures StoredAdminLayoutNavigation(Entry(u)).None? ==> AdminLayoutNavigation(Some(u)) == Some("/")
  {
  }

  /** What TouristLayout renders: a spinner, '/' or the tourist pages. */
  datatype LayoutView = LayoutSpinner | LayoutRedirect(to: string) | SidebarAndOutlet

  /** src/components/TouristLayout.tsx. `isLoading` is the field it reads
      from the auth context. */
  function TouristLayout(isLoading: Option<bool>, user: Option<ClientUser>): LayoutView {
    if isLoading == Some(true) then LayoutSpinner
    else if user.None? || user.value.role != "tourist" then LayoutRedirect("/")
    else SidebarAndOutlet
  }

  /** The context value (AuthContext.tsx:151-161) has `loading` but no
      `isLoading`, so the field reads as undefined: the spinner never shows,
      and only the lower-case role 'tourist' gets the pages — the stored
      'Tourist' is sent to '/'. */
  lemma TouristLayoutOutcomes(user: Option<ClientUser>)
    ensures TouristLayout(None, user) != LayoutSpinner
    ensures TouristLayout(None, user) == SidebarAndOutlet <==> user.Some? && user.value.role == "tourist"
    ensures user.Some? && user.value.role == "Tourist" ==> TouristLayout(None, user) == LayoutRedirect("/")
  {
  }
}
