/**
 * The shell around every signed-in page, `src/components/layout/DashboardLayout.tsx`:
 * which navigation items a user sees, which one is active, and the sidebar,
 * navigation-click and sign-out handlers.
 */
module DashboardLayout {
  import opened Wrappers
  import opened Types
  import Seqs
  import AuthStore

  datatype NavItem = NavItem(name: string, path: string, adminOnly: bool)

  /** The items every signed-in user sees. */
  const CommonItems: seq<NavItem> := [
    NavItem("Dashboard", "/dashboard", false),
    NavItem("Tickets", "/tickets", false),
    NavItem("Knowledge Base", "/knowledge", false)
  ]

  /** The items marked admin-only. */
  const AdminItems: seq<NavItem> := [
    NavItem("Users", "/users", true),
    NavItem("Settings", "/settings", true)
  ]

  /** The declared navigation, in order. */
  const Navigation: seq<NavItem> := CommonItems + AdminItems

  /** `if (item.adminOnly && user?.role !== 'admin') return null`. */
  function Shown(current: Option<User>): NavItem -> bool {
    (item: NavItem) => !(item.adminOnly && Restricted(current))
  }

  /**
   * The items rendered for the current user: all five for an admin, only
   * the first three (the ones not marked admin-only) for anyone else.
   */
  function VisibleItems(current: Option<User>): (r: seq<NavItem>)
    ensures !Restricted(current) ==> r == Navigation
    ensures Restricted(current) ==> r == CommonItems
    ensures forall item :: item in r <==> item in Navigation && (!item.adminOnly || !Restricted(current))
  {
    ShownSplit(current);
    Seqs.Filter(Navigation, Shown(current))
  }

  /** The common items are always shown; the admin-only ones only to an admin. */
  lemma ShownSplit(current: Option<User>)
    ensures !Restricted(current) ==> Seqs.Filter(Navigation, Shown(current)) == Navigation
    ensures Restricted(current) ==> Seqs.Filter(Navigation, Shown(current)) == CommonItems
  {
    var shown := Shown(current);
    Seqs.FilterAppend(CommonItems, AdminItems, shown);
    Seqs.FilterKeepsAll(CommonItems, shown);
    if !Restricted(current) {
      Seqs.FilterKeepsAll(AdminItems, shown);
    } else {
      AdminItemsHidden(current);
    }
  }

  /** Anyone but an admin sees none of the admin-only items. */
  lemma AdminItemsHidden(current: Option<User>)
    requires Restricted(current)
    ensures Seqs.Filter(AdminItems, Shown(current)) == []
  {
  }

  /**
   * `location.pathname === item.path`: an exact comparison, so a path below
   * the item's own (`/tickets/new` under `/tickets`) does not highlight it.
   */
  function IsActive(pathname: string, item: NavItem): (ok: bool)
    ensures ok ==> |pathname| == |item.path|
    ensures |item.path| < |pathname| && pathname[..|item.path|] == item.path ==> !ok
  {
    pathname == item.path
  }

  function ActiveIn(pathname: string): NavItem -> bool {
    (item: NavItem) => IsActive(pathname, item)
  }

  /** No two positions of a list of items share a path. */
  predicate DistinctPaths(items: seq<NavItem>) {
    forall i, j :: 0 <= i < j < |items| ==> items[i].path != items[j].path
  }

  /** In a list with distinct paths, at most one item is active for any pathname. */
  lemma {:induction false} AtMostOneActiveIn(items: seq<NavItem>, pathname: string)
    requires DistinctPaths(items)
    ensures |Seqs.Filter(items, ActiveIn(pathname))| <= 1
  {
    if items != [] {
      var rest := items[1..];
      assert DistinctPaths(rest) by {
        forall i, j | 0 <= i < j < |rest| ensures rest[i].path != rest[j].path {
          assert rest[i] == items[i + 1] && rest[j] == items[j + 1];
        }
      }
      AtMostOneActiveIn(rest, pathname);
    }
  }

  /** The five declared paths are pairwise distinct. */
  lemma NavigationPathsDistinct()
    ensures DistinctPaths(Navigation)
    ensures DistinctPaths(CommonItems)
  {
    var n := Navigation;
    assert n[0].path == "/dashboard" && n[1].path == "/tickets" && n[2].path == "/knowledge";
    assert n[3].path == "/users" && n[4].path == "/settings";
  }

  /** Whoever is signed in, at most one visible item is highlighted. */
  lemma AtMostOneActive(current: Option<User>, pathname: string)
    ensures |Seqs.Filter(VisibleItems(current), ActiveIn(pathname))| <= 1
  {
    NavigationPathsDistinct();
    AtMostOneActiveIn(VisibleItems(current), pathname);
  }

  /** A path no item declares, such as a sub-page's, highlights no item. */
  lemma UndeclaredPathHighlightsNothing(current: Option<User>, pathname: string)
    requires forall i :: 0 <= i < |Navigation| ==> Navigation[i].path != pathname
    ensures Seqs.Filter(VisibleItems(current), ActiveIn(pathname)) == []
  {
    var r := Seqs.Filter(VisibleItems(current), ActiveIn(pathname));
    if r != [] {
      assert false;
    }
  }

  /** The forms for a new ticket and a new user highlight no item, whoever is signed in. */
  lemma NewItemFormsHighlightNothing(current: Option<User>)
    ensures Seqs.Filter(VisibleItems(current), ActiveIn("/tickets/new")) == []
    ensures Seqs.Filter(VisibleItems(current), ActiveIn("/users/new")) == []
  {
    var n := Navigation;
    var ticketForm, userForm := "/tickets/new", "/users/new";
    forall i | 0 <= i < |n| ensures n[i].path != ticketForm && n[i].path != userForm {
      assert |ticketForm| == 12 && userForm[1] == 'u';
      assert |n[i].path| < 12;
      assert n[i].path != userForm by {
        if |n[i].path| == |userForm| {
          assert n[i].path[1] != 'u';
        }
      }
    }
    UndeclaredPathHighlightsNothing(current, ticketForm);
    UndeclaredPathHighlightsNothing(current, userForm);
  }

  /** Some item of the list leads to `path`. */
  predicate Offers(items: seq<NavItem>, path: string) {
    exists i :: 0 <= i < |items| && items[i].path == path
  }

  /**
   * The navigation offers the user-management and settings pages exactly to
   * the users those pages' own admin gates let in.
   */
  lemma AdminItemsFollowPageGates(current: Option<User>)
    ensures Offers(VisibleItems(current), "/users") <==> !Restricted(current)
    ensures Offers(VisibleItems(current), "/settings") <==> !Restricted(current)
  {
    AdminPagesAreTheLastTwo();
  }

  /** Only the two admin-only items lead to the user-management and settings pages. */
  lemma AdminPagesAreTheLastTwo()
    ensures Offers(Navigation, "/users") && Offers(Navigation, "/settings")
    ensures !Offers(CommonItems, "/users") && !Offers(CommonItems, "/settings")
  {
    var n := Navigation;
    assert n[3].path == "/users" && n[4].path == "/settings";
    var c := CommonItems;
    assert c[0].path == "/dashboard" && c[1].path == "/tickets" && c[2].path == "/knowledge";
  }

  class Layout {
    var sidebarOpen: bool
    var navigatedTo: Option<string>

    constructor ()
      ensures !sidebarOpen && navigatedTo == None
    {
      sidebarOpen, navigatedTo := false, None;
    }

    /** The mobile menu button flips the sidebar. */
    method ToggleSidebar()
      modifies this
      ensures sidebarOpen == !old(sidebarOpen)
      ensures navigatedTo == old(navigatedTo)
    {
      sidebarOpen := !sidebarOpen;
    }

    /** A click on the overlay closes the sidebar. */
    method CloseSidebar()
      modifies this
      ensures !sidebarOpen
      ensures navigatedTo == old(navigatedTo)
    {
      sidebarOpen := false;
    }

    /** A click on a navigation item opens its path and closes the sidebar. */
    method ClickItem(item: NavItem)
      modifies this
      ensures navigatedTo == Some(item.path)
      ensures !sidebarOpen
    {
      navigatedTo := Some(item.path);
      sidebarOpen := false;
    }

    /** `handleSignOut`: the store signs out, then the login page opens. */
    method SignOut(auth: AuthStore.Store)
      modifies this, auth
      ensures auth.user == None && auth.loading == old(auth.loading)
      ensures navigatedTo == Some("/login")
      ensures sidebarOpen == old(sidebarOpen)
    {
      auth.SignOut();
      navigatedTo := Some("/login");
    }
  }
}
