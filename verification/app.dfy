/** The application shell: the current page id, navigation, and which screen a page id renders. */
module App {
  import opened Wrappers
  import Lists

  /** The screens the shell can show; `Landing` is the hero, features and testimonials page. */
  datatype Screen =
    | Dashboard | Mood | Focus | Analytics | Settings | Signup | Login | Landing

  /** The shell's one piece of state: the id of the current page. */
  datatype Shell = Shell(currentPage: string)

  /** The shell opens on the "home" page. */
  const Initial := Shell("home")

  /** The page id with a dedicated case in the dispatch, or "home" for the landing page. */
  function PageId(s: Screen): string {
    match s
    case Dashboard => "dashboard"
    case Mood => "mood"
    case Focus => "focus"
    case Analytics => "analytics"
    case Settings => "settings"
    case Signup => "signup"
    case Login => "login"
    case Landing => "home"
  }

  /** The page ids the dispatch handles by name. */
  predicate Dedicated(page: string) {
    page in {"dashboard", "mood", "focus", "analytics", "settings", "signup", "login"}
  }

  /** `renderContent`: the screen for the current page id; every unknown id shows the landing page. */
  function RenderContent(page: string): (r: Screen)
    ensures r != Landing <==> Dedicated(page)
    ensures r != Landing ==> PageId(r) == page
  {
    if page == "dashboard" then Dashboard
    else if page == "mood" then Mood
    else if page == "focus" then Focus
    else if page == "analytics" then Analytics
    else if page == "settings" then Settings
    else if page == "signup" then Signup
    else if page == "login" then Login
    else Landing
  }

  /** Every screen is rendered by its own page id, so the id names the screen. */
  lemma RenderPageId(s: Screen)
    ensures RenderContent(PageId(s)) == s
  {
  }

  /** Two page ids show the same named screen only if they are equal. */
  lemma RenderInjective(p: string, q: string)
    requires Dedicated(p) && Dedicated(q)
    ensures RenderContent(p) == RenderContent(q) <==> p == q
  {
  }

  /** `handleNavigation`: the requested page becomes current, whatever it was before. */
  function Navigate(app: Shell, page: string): (r: Shell)
    ensures RenderContent(r.currentPage) == RenderContent(page)
    ensures Dedicated(page) ==> PageId(RenderContent(r.currentPage)) == page
  {
    Shell(page)
  }

  /** Navigation keeps no history: of two navigations only the second one counts. */
  lemma LastNavigationWins(app: Shell, p: string, q: string)
    ensures Navigate(Navigate(app, p), q) == Navigate(app, q)
  {
  }

  /** The navigation bar's items, in order, by page id. */
  const NavbarIds: seq<string> := ["dashboard", "mood", "focus", "analytics", "settings"]

  /**
   * The page ids a screen offers to navigate to: the navigation bar's logo
   * ("home"), its five items and its logout button, then the screen's own
   * links. From every screen, the landing page and the five item screens are
   * one click away, and every link names a known page or a landing-page id.
   */
  function Links(s: Screen): (r: seq<string>)
    ensures forall t: Screen :: t != Signup && t != Login ==> PageId(t) in r
    ensures "logout" in r
    ensures forall i :: 0 <= i < |r| ==> Dedicated(r[i]) || r[i] == "home" || r[i] == "logout"
  {
    ["home"] + NavbarIds + ["logout"] +
      match s
      case Landing => ["signup", "login"]
      case Dashboard => ["focus", "mood", "analytics"]
      case Signup => ["login"]
      case Login => ["signup"]
      case _ => []
  }

  /** The navigation bar's items each reach a distinct screen, and "logout" lands on the landing page. */
  lemma NavbarTargets()
    ensures forall i, j :: 0 <= i < j < |NavbarIds| ==> RenderContent(NavbarIds[i]) != RenderContent(NavbarIds[j])
    ensures forall i :: 0 <= i < |NavbarIds| ==> RenderContent(NavbarIds[i]) != Landing
    ensures RenderContent("logout") == Landing
  {
  }

  lemma NavbarIdsDistinct()
    ensures Lists.NoDuplicates(NavbarIds)
  {
  }

  /**
   * The navigation bar items highlighted for a page: each item compares its
   * own id with the current page. Because the ids are distinct, at most one
   * item lights up, and none on a page outside the bar.
   */
  function Highlighted(page: string): (r: seq<string>)
    ensures |r| <= 1
    ensures |r| == 1 <==> page in NavbarIds
    ensures |r| == 1 ==> r[0] == page
  {
    var r := Lists.Filter(NavbarIds, (id: string) => id == page);
    NavbarIdsDistinct();
    Lists.FilterNoDuplicates(NavbarIds, (id: string) => id == page);
    assert |r| >= 2 ==> r[0] == page == r[1];
    r
  }

  /** Following a sequence of clicks, each on a link the current screen shows. */
  function Follow(app: Shell, clicks: seq<string>): Option<Shell>
    decreases |clicks|
  {
    if |clicks| == 0 then Some(app)
    else if clicks[0] in Links(RenderContent(app.currentPage)) then Follow(Navigate(app, clicks[0]), clicks[1..])
    else None
  }

  /** A route from the landing page to each screen: the screen's own id, reached through the landing page's or the navigation bar's links. */
  function RouteTo(s: Screen): (path: seq<string>)
    ensures |path| <= 2
    ensures var r := Follow(Initial, path); r.Some? && RenderContent(r.value.currentPage) == s
  {
    match s
    case Landing => []
    case Signup => ["signup"]
    case Login => ["login"]
    case _ =>
      assert PageId(s) in NavbarIds;
      [PageId(s)]
  }

  /** After logging out every screen is reachable again. */
  lemma LogoutThenReach(app: Shell, s: Screen)
    ensures var r := Follow(app, ["logout"] + RouteTo(s)); r.Some? && RenderContent(r.value.currentPage) == s
  {
    var path := ["logout"] + RouteTo(s);
    assert "logout" in Links(RenderContent(app.currentPage));
    assert path[1..] == RouteTo(s);
    FollowSameScreen(Navigate(app, "logout"), Initial, RouteTo(s));
  }

  /** Which clicks are allowed, and the screen they end on, depend only on the screen shown at the start. */
  lemma {:induction false} FollowSameScreen(a: Shell, b: Shell, clicks: seq<string>)
    requires RenderContent(a.currentPage) == RenderContent(b.currentPage)
    ensures Follow(a, clicks).Some? <==> Follow(b, clicks).Some?
    ensures Follow(a, clicks).Some? ==>
      RenderContent(Follow(a, clicks).value.currentPage) == RenderContent(Follow(b, clicks).value.currentPage)
  {
    if |clicks| > 0 && clicks[0] in Links(RenderContent(a.currentPage)) {
      assert Navigate(a, clicks[0]) == Navigate(b, clicks[0]);
    }
  }
}
