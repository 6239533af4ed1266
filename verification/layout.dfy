/** The application shell (`LayoutComponent`): the collapsible sidebar, the
    menu with one highlighted entry, and the logout button. */
module Layout {
  import opened Wrappers
  import Auth
  import Login

  const LoginRoute: string := "/login"

  /** A menu entry; the source's `label` field is `title` here, since
      `label` is a keyword in Dafny. */
  datatype MenuItem = MenuItem(icon: string, title: string, route: string, active: bool)

  datatype Shell = Shell(sidebarCollapsed: bool, menu: seq<MenuItem>)

  /** The shell's menu as declared: Dashboard highlighted, the rest not. */
  const InitialMenu: seq<MenuItem> := [
    MenuItem("\U{1F4CA}", "Dashboard", "/dashboard", true),
    MenuItem("\U{1F465}", "Users", "/users", false),
    MenuItem("\U{1F4E6}", "Products", "/products", false),
    MenuItem("\U{1F6D2}", "Orders", "/orders", false),
    MenuItem("\U{1F4C8}", "Analytics", "/analytics", false),
    MenuItem("\U{2699}\U{FE0F}", "Settings", "/settings", false)
  ]

  const InitialShell: Shell := Shell(false, InitialMenu)

  /** The positions of the highlighted menu entries. */
  function ActiveIndices(menu: seq<MenuItem>): set<int> {
    set k | 0 <= k < |menu| && menu[k].active
  }

  /** The two entries differ at most in their highlight. */
  predicate SameEntry(a: MenuItem, b: MenuItem) {
    a.icon == b.icon && a.title == b.title && a.route == b.route
  }

  /** The shell starts expanded with Dashboard, the first entry, the only one
      highlighted. */
  lemma InitialState()
    ensures !InitialShell.sidebarCollapsed
    ensures |InitialShell.menu| == 6 && InitialShell.menu[0].title == "Dashboard"
    ensures ActiveIndices(InitialShell.menu) == {0}
  {
  }

  /** `toggleSidebar`. */
  function ToggleSidebar(s: Shell): (r: Shell)
    ensures r.sidebarCollapsed != s.sidebarCollapsed && r.menu == s.menu
  {
    s.(sidebarCollapsed := !s.sidebarCollapsed)
  }

  lemma ToggleTwice(s: Shell)
    ensures ToggleSidebar(ToggleSidebar(s)) == s
  {
  }

  /** `setActive`: the entry at `index` is highlighted and every other one is
      not; nothing else about the menu changes. */
  function SetActive(menu: seq<MenuItem>, index: int): (r: seq<MenuItem>)
    ensures |r| == |menu|
    ensures forall k :: 0 <= k < |r| ==> (r[k].active <==> k == index) && SameEntry(r[k], menu[k])
  {
    seq(|menu|, k requires 0 <= k < |menu| => menu[k].(active := k == index))
  }

  /** An index on the menu leaves exactly that entry highlighted; any other
      index leaves none. */
  lemma SetActiveHighlights(menu: seq<MenuItem>, index: int)
    ensures ActiveIndices(SetActive(menu, index)) == if 0 <= index < |menu| then {index} else {}
  {
  }

  /** The click handler over the whole shell. */
  function Select(s: Shell, index: int): (r: Shell)
    ensures r.sidebarCollapsed == s.sidebarCollapsed
    ensures r.menu == SetActive(s.menu, index)
  {
    s.(menu := SetActive(s.menu, index))
  }

  /** The effects of `logout`, in the order they happen. */
  datatype Effect = SessionCleared | Navigated(route: string)

  datatype LoggedOut = LoggedOut(session: Auth.Session, effects: seq<Effect>)

  /** `logout`: the session is cleared first, then the shell navigates to the
      login page. */
  function Logout(session: Auth.Session): (r: LoggedOut)
    ensures !Auth.IsLoggedIn(r.session) && Auth.CurrentUserValue(r.session).None?
    ensures r.session == Auth.Logout(session)
    ensures |r.effects| == 2 && r.effects[0] == SessionCleared && r.effects[1] == Navigated(LoginRoute)
  {
    LoggedOut(Auth.Logout(session), [SessionCleared, Navigated(LoginRoute)])
  }

  /** Because the session is cleared before the shell navigates, the login
      screen it lands on does not bounce the user back to the dashboard. */
  lemma LoginScreenStaysAfterLogout(session: Auth.Session, returnParam: Option<string>)
    ensures Login.Create(Logout(session).session, returnParam).redirect == None
  {
  }
}
