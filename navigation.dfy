/** The navigation bar and the side bar of the src/ front end:
    src/components/Navbar.tsx and src/components/Sidebar.tsx. Both map a
    role to its pages with an exact, case-sensitive switch, unlike the
    lower-casing `getDashboardPath` of the auth context. */
module Navigation {
  import opened Wrappers
  import opened ClientAuth
  import Text

  /** The local `getDashboardPath()` of Navbar and Sidebar. */
  function DashboardPathExact(user: Option<ClientUser>): (p: string)
    ensures user.None? ==> p == "/"
    ensures user.Some? && user.value.role == "Admin" ==> p == "/admin/dashboard"
    ensures user.Some? && user.value.role == "Guide" ==> p == "/guide/dashboard"
    ensures user.Some? && user.value.role == "Tourist" ==> p == "/tourist/dashboard"
    ensures p == "/" <==> user.None? || user.value.role !in {"Admin", "Guide", "Tourist"}
  {
    if user.None? then "/"
    else match user.value.role
      case "Admin" => "/admin/dashboard"
      case "Guide" => "/guide/dashboard"
      case "Tourist" => "/tourist/dashboard"
      case _ => "/"
  }

  /** The local `getProfilePath()` of Navbar and Sidebar. */
  function ProfilePathExact(user: Option<ClientUser>): (p: string)
    ensures user.None? ==> p == "/"
    ensures user.Some? && user.value.role == "Admin" ==> p == "/admin/profile"
    ensures user.Some? && user.value.role == "Guide" ==> p == "/guide/profile"
    ensures user.Some? && user.value.role == "Tourist" ==> p == "/tourist/profile"
    ensures p == "/" <==> user.None? || user.value.role !in {"Admin", "Guide", "Tourist"}
  {
    if user.None? then "/"
    else match user.value.role
      case "Admin" => "/admin/profile"
      case "Guide" => "/guide/profile"
      case "Tourist" => "/tourist/profile"
      case _ => "/"
  }

  /** For the three stored spellings the exact switch agrees with the
      context's mapping; for a lower-case role it does not. */
  lemma ExactSwitchAgainstContext(u: ClientUser)
    ensures u.role in {"Admin", "Guide", "Tourist"} ==> DashboardPathExact(Some(u)) == DashboardPath(u.role)
    ensures u.role == "admin" ==> DashboardPathExact(Some(u)) == "/" && DashboardPath(u.role) == "/admin/dashboard"
  {
    if u.role == "Admin" { assert Text.Lower("Admin") == "admin"; }
    if u.role == "Guide" { assert Text.Lower("Guide") == "guide"; }
    if u.role == "Tourist" { assert Text.Lower("Tourist") == "tourist"; }
    if u.role == "admin" { assert Text.Lower("admin") == "admin"; }
  }

  /** A side bar entry. */
  datatype MenuItem = MenuItem(name: string, path: string)

  /** Sidebar's `menuItems`. */
  function MenuItems(user: Option<ClientUser>): (items: seq<MenuItem>)
    ensures |items| == 3
    ensures items[0] == MenuItem("Dashboard", DashboardPathExact(user))
    ensures items[1] == MenuItem("Booked Tours", DashboardPathExact(user) + "/booked-tours")
    ensures items[2] == MenuItem("Profile", ProfilePathExact(user))
  {
    var d := DashboardPathExact(user);
    [MenuItem("Dashboard", d), MenuItem("Booked Tours", d + "/booked-tours"),
     MenuItem("Profile", ProfilePathExact(user))]
  }

  /** Sidebar's `isActive`: exact equality with the current path. */
  predicate IsActive(currentPath: string, path: string) {
    currentPath == path
  }

  /** The indices of the highlighted entries. */
  function ActiveItems(items: seq<MenuItem>, currentPath: string): (s: set<nat>)
    ensures forall k: nat :: k in s <==> k < |items| && IsActive(currentPath, items[k].path)
  {
    set k: nat | k < |items| && IsActive(currentPath, items[k].path)
  }

  /** With one of the three stored roles at most one entry is highlighted;
      without a user (or with any other role) the Dashboard and Profile
      entries both point at '/', both light up there, and Booked Tours
      points at '//booked-tours'. */
  lemma ActiveItemsOutcomes(user: Option<ClientUser>, currentPath: string)
    ensures user.Some? && user.value.role in {"Admin", "Guide", "Tourist"} ==>
      |ActiveItems(MenuItems(user), currentPath)| <= 1
    ensures user.None? || user.value.role !in {"Admin", "Guide", "Tourist"} ==>
      ActiveItems(MenuItems(user), "/") == {0, 2}
      && MenuItems(user)[1].path == "//booked-tours"
  {
    var items := MenuItems(user);
    var a := ActiveItems(items, currentPath);
    if user.Some? && user.value.role in {"Admin", "Guide", "Tourist"} {
      assert items[0].path != items[1].path by {
        assert |items[1].path| > |items[0].path|;
      }
      assert items[0].path != items[2].path;
      assert items[1].path != items[2].path;
      assert a <= {0} || a <= {1} || a <= {2};
      if a <= {0} { SubsetSize(a, {0}); }
      else if a <= {1} { SubsetSize(a, {1}); }
      else { SubsetSize(a, {2}); }
    } else {
      var b := ActiveItems(items, "/");
      assert 0 in b && 2 in b;
      assert items[1].path == "//booked-tours";
      assert 1 !in b;
      assert b == {0, 2};
    }
  }

  lemma SubsetSize(a: set<nat>, b: set<nat>)
    requires a <= b
    ensures |a| <= |b|
  {
    assert b == a + (b - a);
  }

  /** What `handleNavigation(section)` does. */
  datatype SectionAction = GoHome(scrollTo: string) | ScrollHere(section: string)

  /** Away from '/' the bar navigates home carrying the section to scroll
      to; on '/' it scrolls in place. */
  function HandleNavigation(pathname: string, section: string): (a: SectionAction)
    ensures a.GoHome? <==> pathname != "/"
    ensures a.GoHome? ==> a.scrollTo == section
    ensures a.ScrollHere? ==> a.section == section
  {
    if pathname != "/" then GoHome(section) else ScrollHere(section)
  }

  /** The navigation bar's state: its authentication flag and user data,
      the mobile menu, and the parts of the window it touches. */
  class Navbar {
    var isAuthenticated: bool
    var userData: Option<ClientUser>
    var menuOpen: bool
    var storage: Stored
    var location: string
    var replaced: bool

    /** What the bar shows agrees with what storage holds. */
    predicate Synced()
      reads this
    {
      (isAuthenticated <==> storage.Entry?)
      && (if storage.Entry? then userData == Some(storage.user) else userData.None?)
    }

    /** The first render, before any effect. */
    constructor (storage: Stored, location: string)
      ensures !isAuthenticated && userData.None? && !menuOpen && !replaced
      ensures this.storage == storage && this.location == location
    {
      isAuthenticated := false;
      userData := None;
      menuOpen := false;
      this.storage := storage;
      this.location := location;
      replaced := false;
    }

    /** `handleLogout`: the stored user is removed, the bar's state cleared,
        the menu closed, and the app replaces the page with /signin. */
    method HandleLogout()
      modifies this
      ensures Synced()
      ensures storage == NoEntry && !isAuthenticated && userData.None? && !menuOpen
      ensures location == "/signin" && replaced
    {
      storage := NoEntry;
      isAuthenticated := false;
      userData := None;
      menuOpen := false;
      location := "/signin";
      replaced := true;
    }

    /** `checkAuth`: a stored user that parses is shown; no entry clears the
        bar; an entry that does not parse logs the user out. Whatever
        storage held, the bar ends in step with it. */
    method CheckAuth()
      modifies this
      ensures Synced()
      ensures old(storage).Entry? ==> storage == old(storage) && userData == Some(old(storage).user)
                                      && menuOpen == old(menuOpen) && location == old(location)
      ensures old(storage).NoEntry? ==> storage == NoEntry && menuOpen == old(menuOpen) && location == old(location)
      ensures old(storage).Unparsable? ==> storage == NoEntry && !menuOpen && location == "/signin" && replaced
    {
      match storage {
        case Entry(u) =>
          isAuthenticated := true;
          userData := Some(u);
        case NoEntry =>
          isAuthenticated := false;
          userData := None;
        case Unparsable =>
          HandleLogout();
      }
    }
  }
}
