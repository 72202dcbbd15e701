/** The navigation sidebar: the menu chosen by role, which entry is
    highlighted for the current path, and the labels and avatar letter in
    its header and footer. */
module AppSidebar {

  import opened Wrappers
  import opened Text
  import opened AuthContext

  datatype NavItem = NavItem(title: string, url: string)

  /** The only entry matched exactly rather than by prefix. */
  const DashboardUrl: string := "/dashboard"

  const AdminNavItems: seq<NavItem> := [
    NavItem("Dashboard", "/dashboard"),
    NavItem("Projects", "/dashboard/projects"),
    NavItem("Tickets", "/dashboard/tickets"),
    NavItem("Code Red", "/dashboard/code-red"),
    NavItem("Users", "/dashboard/users"),
    NavItem("Analytics", "/dashboard/analytics")
  ]

  const UserNavItems: seq<NavItem> := [
    NavItem("Dashboard", "/dashboard"),
    NavItem("My Tickets", "/dashboard/tickets"),
    NavItem("Analytics", "/dashboard/analytics")
  ]

  function Urls(items: seq<NavItem>): (r: seq<string>)
    ensures |r| == |items|
    ensures forall i :: 0 <= i < |items| ==> r[i] == items[i].url
  {
    seq(|items|, i requires 0 <= i < |items| => items[i].url)
  }

  function Titles(items: seq<NavItem>): (r: seq<string>)
    ensures |r| == |items|
    ensures forall i :: 0 <= i < |items| ==> r[i] == items[i].title
  {
    seq(|items|, i requires 0 <= i < |items| => items[i].title)
  }

  /** An admin gets the six admin entries and anyone else the three user
      entries, in their declared order. */
  function NavItems(isAdmin: bool): (items: seq<NavItem>)
    ensures isAdmin ==> Titles(items) == ["Dashboard", "Projects", "Tickets", "Code Red", "Users", "Analytics"]
    ensures isAdmin ==> Urls(items) == ["/dashboard", "/dashboard/projects", "/dashboard/tickets",
                                        "/dashboard/code-red", "/dashboard/users", "/dashboard/analytics"]
    ensures !isAdmin ==> Titles(items) == ["Dashboard", "My Tickets", "Analytics"]
    ensures !isAdmin ==> Urls(items) == ["/dashboard", "/dashboard/tickets", "/dashboard/analytics"]
  {
    if isAdmin then AdminNavItems else UserNavItems
  }

  /** Every page in the user menu is also in the admin menu. */
  lemma UserMenuWithinAdminMenu()
    ensures forall u :: u in Urls(NavItems(false)) ==> u in Urls(NavItems(true))
  {
  }

  /** `isActive(path)`: exact match for the dashboard entry, a raw prefix
      match for every other entry. */
  predicate IsActive(currentPath: string, path: string) {
    if path == DashboardUrl then currentPath == path else StartsWith(currentPath, path)
  }

  /** The dashboard entry is active on "/dashboard" only, not on the pages
      below it. */
  lemma DashboardActiveOnlyOnItself(currentPath: string)
    ensures IsActive(currentPath, DashboardUrl) <==> currentPath == DashboardUrl
  {
  }

  /** Every other entry is active exactly on the paths that start with its
      URL. */
  lemma OtherEntriesMatchByPrefix(currentPath: string, path: string)
    requires path != DashboardUrl
    ensures IsActive(currentPath, path) <==> StartsWith(currentPath, path)
  {
  }

  /** Any other entry is active on every path that starts with its URL; the
      match does not stop at a path segment. */
  lemma PrefixMatchIgnoresSegments()
    ensures IsActive("/dashboard/tickets-archive", "/dashboard/tickets")
    ensures IsActive("/dashboard/tickets/TKT-1001", "/dashboard/tickets")
    ensures !IsActive("/dashboard/tickets", DashboardUrl)
  {
    assert "/dashboard/tickets-archive"[..|"/dashboard/tickets"|] == "/dashboard/tickets";
    assert "/dashboard/tickets/TKT-1001"[..|"/dashboard/tickets"|] == "/dashboard/tickets";
  }

  /** No two entries share a URL, and no URL of an entry matched by prefix
      begins another entry's URL. */
  predicate PrefixFree(items: seq<NavItem>) {
    forall i, j :: 0 <= i < |items| && 0 <= j < |items| && i != j ==>
      && items[i].url != items[j].url
      && (items[j].url != DashboardUrl ==> !StartsWith(items[i].url, items[j].url))
  }

  /** Two prefixes of the same string: the shorter begins the longer. */
  lemma PrefixesNest(s: string, p: string, q: string)
    requires StartsWith(s, p) && StartsWith(s, q) && |p| <= |q|
    ensures StartsWith(q, p)
  {
    assert q[..|p|] == s[..|q|][..|p|];
  }

  /** In a prefix-free menu at most one entry is active, whatever the path. */
  lemma AtMostOneActiveIn(items: seq<NavItem>, currentPath: string)
    requires PrefixFree(items)
    ensures forall i, j :: 0 <= i < j < |items| && IsActive(currentPath, items[i].url) && IsActive(currentPath, items[j].url) ==> false
  {
    forall i, j | 0 <= i < j < |items| && IsActive(currentPath, items[i].url) && IsActive(currentPath, items[j].url)
      ensures false
    {
      var u, w := items[i].url, items[j].url;
      if u == DashboardUrl || w == DashboardUrl {
      } else if |u| <= |w| {
        PrefixesNest(currentPath, u, w);
      } else {
        PrefixesNest(currentPath, w, u);
      }
    }
  }

  /** A menu whose first entry is the dashboard and whose other entries all
      lie under "/dashboard/", each told apart by the character right after
      that prefix, is prefix-free. */
  lemma SectionMenuPrefixFree(items: seq<NavItem>)
    requires |items| >= 1 && items[0].url == DashboardUrl
    requires forall i :: 1 <= i < |items| ==> |items[i].url| > 11 && items[i].url[..11] == DashboardUrl + "/"
    requires forall i, j :: 1 <= i < j < |items| ==> items[i].url[11] != items[j].url[11]
    ensures PrefixFree(items)
  {
    forall i, j | 0 <= i < |items| && 0 <= j < |items| && i != j
      ensures items[i].url != items[j].url
      ensures items[j].url != DashboardUrl ==> !StartsWith(items[i].url, items[j].url)
    {
      var u, w := items[i].url, items[j].url;
      if i != 0 && j != 0 {
        assert u[11] != w[11];
      }
    }
  }

  lemma MenusArePrefixFree()
    ensures PrefixFree(AdminNavItems) && PrefixFree(UserNavItems)
  {
    SectionMenuPrefixFree(AdminNavItems);
    SectionMenuPrefixFree(UserNavItems);
  }

  /** For either menu and any path, at most one entry is highlighted. */
  lemma AtMostOneActive(isAdmin: bool, currentPath: string)
    ensures var items := NavItems(isAdmin);
      forall i, j :: 0 <= i < j < |items| && IsActive(currentPath, items[i].url) && IsActive(currentPath, items[j].url) ==> false
  {
    MenusArePrefixFree();
    AtMostOneActiveIn(NavItems(isAdmin), currentPath);
  }

  /** The sidebar's group label: "Admin" for an admin, "Navigation"
      otherwise. */
  function GroupLabel(isAdmin: bool): (r: string)
    ensures r == "Admin" <==> isAdmin
    ensures !isAdmin ==> r == "Navigation"
  {
    if isAdmin then "Admin" else "Navigation"
  }

  /** The footer's role label: "Admin" for an admin, "User" otherwise. */
  function RoleLabel(isAdmin: bool): (r: string)
    ensures r == "Admin" <==> isAdmin
    ensures !isAdmin ==> r == "User"
  {
    if isAdmin then "Admin" else "User"
  }

  /** `user?.email?.charAt(0).toUpperCase()`, with an absent result rendered
      as nothing. */
  function AvatarInitial(user: Option<AuthUser>): (r: string)
    ensures |r| <= 1
    ensures forall k :: 0 <= k < |r| ==> !IsLower(r[k])
    ensures |r| == 1 <==> user.Some? && user.value.email.Some? && user.value.email.value != []
    ensures |r| == 1 ==> r[0] == UpperChar(user.value.email.value[0])
  {
    match user
    case None => ""
    case Some(u) =>
      match u.email
      case None => ""
      case Some(e) => var c := CharAt0(e); if c == [] then "" else [UpperChar(c[0])]
  }

  /** `user?.email`. */
  function EmailOf(user: Option<AuthUser>): Option<string> {
    if user.Some? then user.value.email else None
  }

  /** One menu entry: its title is shown only while the sidebar is expanded. */
  datatype MenuEntry = MenuEntry(title: Option<string>, url: string, active: bool)

  /** The footer text shown while the sidebar is expanded. */
  datatype FooterText = FooterText(email: Option<string>, roleLabel: string)

  datatype SidebarView = SidebarView(
    groupLabel: Option<string>,
    entries: seq<MenuEntry>,
    avatar: string,
    footer: Option<FooterText>)

  /** What the sidebar renders for a viewer on a path, collapsed or expanded. */
  function Sidebar(isAdmin: bool, collapsed: bool, currentPath: string, user: Option<AuthUser>): (v: SidebarView)
    ensures v.groupLabel.Some? <==> !collapsed
    ensures v.groupLabel.Some? ==> v.groupLabel.value == GroupLabel(isAdmin)
    ensures |v.entries| == |NavItems(isAdmin)| == (if isAdmin then 6 else 3)
    ensures forall k :: 0 <= k < |v.entries| ==>
      && v.entries[k].url == NavItems(isAdmin)[k].url
      && (v.entries[k].title.Some? <==> !collapsed)
      && (v.entries[k].title.Some? ==> v.entries[k].title.value == NavItems(isAdmin)[k].title)
      && (v.entries[k].active <==> IsActive(currentPath, NavItems(isAdmin)[k].url))
    ensures forall i, j :: 0 <= i < j < |v.entries| && v.entries[i].active ==> !v.entries[j].active
    ensures v.avatar == AvatarInitial(user)
    ensures v.footer.Some? <==> !collapsed
    ensures v.footer.Some? ==> v.footer.value == FooterText(EmailOf(user), RoleLabel(isAdmin))
  {
    var items := NavItems(isAdmin);
    AtMostOneActive(isAdmin, currentPath);
    SidebarView(
      if collapsed then None else Some(GroupLabel(isAdmin)),
      seq(|items|, k requires 0 <= k < |items| =>
        MenuEntry(if collapsed then None else Some(items[k].title), items[k].url, IsActive(currentPath, items[k].url))),
      AvatarInitial(user),
      if collapsed then None else Some(FooterText(EmailOf(user), RoleLabel(isAdmin))))
  }

  /** On "/dashboard" exactly the dashboard entry is highlighted, and on a
      page below it exactly the entry whose URL begins the path. */
  lemma HighlightOnDashboard(isAdmin: bool, collapsed: bool, user: Option<AuthUser>)
    ensures var v := Sidebar(isAdmin, collapsed, DashboardUrl, user);
      forall k :: 0 <= k < |v.entries| ==> (v.entries[k].active <==> k == 0)
  {
    var v := Sidebar(isAdmin, collapsed, DashboardUrl, user);
    forall k | 0 <= k < |v.entries|
      ensures v.entries[k].active <==> k == 0
    {
      if k != 0 {
        var u := NavItems(isAdmin)[k].url;
        assert |u| > |DashboardUrl|;
      }
    }
  }
}
