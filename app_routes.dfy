/** The client's routes (frontend/src/App.tsx): which page a URL shows, the guard that
    protects the inventor and attorney pages, and where the root sends each role. A URL
    is matched as React Router matches a path: segment by segment, letters in any case,
    `:id` standing for any non-empty segment, trailing slashes ignored. */
module AppRoutes {
  import opened Wrappers
  import opened Strings
  import opened ClientTypes

  /** What the router shows. `Blank` is the empty outlet when no route matches. */
  datatype Screen = Spinner | Redirect(to: string) | Render(page: string) | Blank

  /** `ProtectedRoute`: a spinner while the session is being restored, the welcome page
      without a user, the root for a user whose role the route does not list, else the
      page. A route that lists no roles admits every signed-in user. */
  function ProtectedRoute(isLoading: bool, user: Option<User>, allowedRoles: Option<seq<string>>, page: string): (r: Screen)
    ensures r == Spinner <==> isLoading
    ensures r == Redirect("/welcome") <==> !isLoading && user.None?
    ensures r == Redirect("/") <==> !isLoading && user.Some? && allowedRoles.Some? && user.value.role !in allowedRoles.value
    ensures r == Render(page) <==>
      !isLoading && user.Some? && (allowedRoles.None? || user.value.role in allowedRoles.value)
  {
    if isLoading then Spinner
    else if user.None? then Redirect("/welcome")
    else if allowedRoles.Some? && user.value.role !in allowedRoles.value then Redirect("/")
    else Render(page)
  }

  /** The dashboards "/inventor/dashboard", "/lawyer/dashboard" and "/admin/dashboard". */
  const InventorHome := "/" + "inventor" + "/dashboard"
  const LawyerHome := "/" + "lawyer" + "/dashboard"
  const AdminHome := "/" + "admin" + "/dashboard"

  /** `RootRedirect`: by role, to the role's dashboard; the welcome page without a user
      or with a role it does not know. It does not wait for the session to be restored. */
  function RootRedirect(user: Option<User>): (r: Screen)
    ensures r.Redirect?
    ensures user.None? ==> r == Redirect("/welcome")
    ensures user.Some? ==>
      r == Redirect(if user.value.role == InventorRole then InventorHome
                    else if user.value.role == LawyerRole then LawyerHome
                    else if user.value.role == AdminRole then AdminHome
                    else "/welcome")
  {
    if user.None? then Redirect("/welcome")
    else if user.value.role == InventorRole then Redirect(InventorHome)
    else if user.value.role == LawyerRole then Redirect(LawyerHome)
    else if user.value.role == AdminRole then Redirect(AdminHome)
    else Redirect("/welcome")
  }

  /** One segment of a route's path. */
  datatype Segment = Exact(name: string) | Param

  /** What a route puts on screen. */
  datatype Element = Root | Page(name: string) | Guarded(allowed: seq<string>, name: string)

  datatype Route = Route(segments: seq<Segment>, element: Element)

  const InventorOrAdmin := [InventorRole, AdminRole]
  const LawyerOrAdmin := [LawyerRole, AdminRole]

  /** The route table, in the order it is declared. */
  const Routes: seq<Route> := [
    Route([], Root),
    Route([Exact("welcome")], Page("Welcome")),
    Route([Exact("login"), Exact("inventor")], Page("InventorLogin")),
    Route([Exact("login"), Exact("attorney")], Page("AttorneyLogin")),
    Route([Exact("signup")], Page("Signup")),
    Route([Exact("inventor"), Exact("dashboard")], Guarded(InventorOrAdmin, "InventorDashboard")),
    Route([Exact("inventor"), Exact("new-disclosure")], Guarded(InventorOrAdmin, "NewDisclosure")),
    Route([Exact("inventor"), Exact("upload-patent")], Guarded(InventorOrAdmin, "UploadPatent")),
    Route([Exact("inventor"), Exact("disclosure"), Param], Guarded(InventorOrAdmin, "InventorDisclosureDetail")),
    Route([Exact("lawyer"), Exact("dashboard")], Guarded(LawyerOrAdmin, "LawyerDashboard")),
    Route([Exact("lawyer"), Exact("disclosure"), Param], Guarded(LawyerOrAdmin, "LawyerDisclosureDetail"))
  ]

  /** The pieces of a URL after its leading '/', with trailing empty pieces (from
      trailing slashes) dropped. `None` for a URL that does not start with '/'. */
  function PathSegments(url: string): (r: Option<seq<string>>)
  {
    var pieces := Split(url, '/');
    if pieces[0] != [] then None else Some(DropTrailingEmpty(pieces[1..]))
  }

  function DropTrailingEmpty(pieces: seq<string>): (r: seq<string>)
    ensures |r| <= |pieces| && r == pieces[..|r|]
    ensures r != [] ==> r[|r| - 1] != []
    ensures forall i :: |r| <= i < |pieces| ==> pieces[i] == []
  {
    if pieces == [] || pieces[|pieces| - 1] != [] then pieces
    else DropTrailingEmpty(pieces[..|pieces| - 1])
  }

  /** A route's segments against a URL's: same number, a literal equal up to case, a
      parameter any non-empty piece. */
  predicate SegmentsMatch(pattern: seq<Segment>, pieces: seq<string>) {
    |pattern| == |pieces| && forall i :: 0 <= i < |pattern| ==> SegmentMatches(pattern[i], pieces[i])
  }

  predicate SegmentMatches(segment: Segment, piece: string) {
    match segment
    case Exact(name) => ToLower(piece) == name
    case Param => piece != []
  }

  /** The first route whose segments match, as an index into `Routes`. */
  function FirstMatch(pieces: seq<string>, from: nat): (r: Option<nat>)
    requires from <= |Routes|
    ensures r.Some? ==> from <= r.value < |Routes| && SegmentsMatch(Routes[r.value].segments, pieces)
    ensures r.Some? ==> forall j :: from <= j < r.value ==> !SegmentsMatch(Routes[j].segments, pieces)
    ensures r.None? ==> forall j :: from <= j < |Routes| ==> !SegmentsMatch(Routes[j].segments, pieces)
    decreases |Routes| - from
  {
    if from == |Routes| then None
    else if SegmentsMatch(Routes[from].segments, pieces) then Some(from)
    else FirstMatch(pieces, from + 1)
  }

  /** What a URL shows, given the session's state. */
  function Show(url: string, isLoading: bool, user: Option<User>): Screen {
    var pieces := PathSegments(url);
    if pieces.None? then Blank
    else
      var k := FirstMatch(pieces.value, 0);
      if k.None? then Blank
      else
        match Routes[k.value].element
        case Root => RootRedirect(user)
        case Page(name) => Render(name)
        case Guarded(allowed, name) => ProtectedRoute(isLoading, user, Some(allowed), name)
  }

  /** Every protected route lets administrators in, and every route is protected for
      exactly one of the two other roles. */
  lemma GuardsAdmitAdmins()
    ensures forall i :: 0 <= i < |Routes| && Routes[i].element.Guarded? ==>
      AdminRole in Routes[i].element.allowed
      && (InventorRole in Routes[i].element.allowed <==> LawyerRole !in Routes[i].element.allowed)
  {
  }

  /** Two routes' segments differ in number, or in a literal at the same place. */
  predicate Distinguished(a: seq<Segment>, b: seq<Segment>) {
    |a| != |b|
    || (|a| >= 1 && |b| >= 1 && a[0].Exact? && b[0].Exact? && a[0].name != b[0].name)
    || (|a| >= 2 && |b| >= 2 && a[1].Exact? && b[1].Exact? && a[1].name != b[1].name)
  }

  /** Every two routes of the table are told apart by their first two segments or their
      length. */
  lemma RoutesDistinguished(i: nat, j: nat)
    requires i < j < |Routes|
    ensures Distinguished(Routes[i].segments, Routes[j].segments)
  {
  }

  /** No two routes overlap: a URL matches at most one route, so the declaration order
      never decides. */
  lemma RoutesDisjoint(pieces: seq<string>, i: nat, j: nat)
    requires i < |Routes| && j < |Routes| && i != j
    ensures !(SegmentsMatch(Routes[i].segments, pieces) && SegmentsMatch(Routes[j].segments, pieces))
  {
    if i < j { RoutesDistinguished(i, j); } else { RoutesDistinguished(j, i); }
  }

  /** The pieces of a URL built from lower-case segments without slashes. */
  lemma PiecesOf(url: string, segments: seq<string>)
    requires segments != [] && forall i :: 0 <= i < |segments| ==> '/' !in segments[i] && segments[i] != []
    requires url == Join([""] + segments, "/")
    ensures PathSegments(url) == Some(segments)
  {
    assert forall i :: 0 <= i < |[""] + segments| ==> '/' !in ([""] + segments)[i];
    SplitJoin([""] + segments, '/');
    assert Split(url, '/')[1..] == segments;
  }

  /** A segment that is already lower case matches itself. */
  lemma LowerCaseSegment(s: string)
    requires forall i :: 0 <= i < |s| ==> !('A' <= s[i] <= 'Z')
    ensures ToLower(s) == s
  {
  }

  /** A dashboard address is cut into its area and "dashboard". */
  lemma DashboardPieces(area: string)
    requires area != [] && '/' !in area
    ensures PathSegments("/" + area + "/dashboard") == Some([area, "dashboard"])
  {
    var segments := [area, "dashboard"];
    assert Join([""] + segments, "/") == "/" + area + "/dashboard" by {
      JoinCons("", segments, "/");
      JoinCons(area, ["dashboard"], "/");
    }
    PiecesOf("/" + area + "/dashboard", segments);
  }

  /** Two segments match two pieces one by one. */
  lemma PairMatches(x: Segment, y: Segment, a: string, b: string)
    requires SegmentMatches(x, a) && SegmentMatches(y, b)
    ensures SegmentsMatch([x, y], [a, b])
  {
  }

  /** A lower-case area and "dashboard" match the two literals they are made of. */
  lemma DashboardMatches(area: string)
    requires ToLower(area) == area
    ensures SegmentsMatch([Exact(area), Exact("dashboard")], [area, "dashboard"])
  {
    LowerCaseSegment("dashboard");
    assert SegmentMatches(Exact("dashboard"), "dashboard");
    assert SegmentMatches(Exact(area), area);
    PairMatches(Exact(area), Exact("dashboard"), area, "dashboard");
  }

  /** Since routes never overlap, any route that matches is the one chosen. */
  lemma MatchChosen(pieces: seq<string>, k: nat)
    requires k < |Routes| && SegmentsMatch(Routes[k].segments, pieces)
    ensures FirstMatch(pieces, 0) == Some(k)
  {
    forall j | 0 <= j < |Routes| && j != k ensures !SegmentsMatch(Routes[j].segments, pieces) {
      RoutesDisjoint(pieces, j, k);
    }
    FirstMatchUnique(pieces, k);
  }

  /** The only route that matches is the first that does. */
  lemma FirstMatchUnique(pieces: seq<string>, k: nat)
    requires k < |Routes| && SegmentsMatch(Routes[k].segments, pieces)
    requires forall j :: 0 <= j < |Routes| && j != k ==> !SegmentsMatch(Routes[j].segments, pieces)
    ensures FirstMatch(pieces, 0) == Some(k)
  {
  }

  /** A dashboard address shows its route's page behind that route's guard. */
  lemma DashboardShows(url: string, area: string, k: nat, isLoading: bool, user: Option<User>)
    requires k < |Routes| && Routes[k].segments == [Exact(area), Exact("dashboard")] && Routes[k].element.Guarded?
    requires area != [] && '/' !in area && ToLower(area) == area
    requires url == "/" + area + "/dashboard"
    ensures Show(url, isLoading, user) ==
      ProtectedRoute(isLoading, user, Some(Routes[k].element.allowed), Routes[k].element.name)
  {
    DashboardPieces(area);
    DashboardMatches(area);
    MatchChosen([area, "dashboard"], k);
  }

  lemma InventorRoute()
    ensures Routes[5] == Route([Exact("inventor"), Exact("dashboard")], Guarded(InventorOrAdmin, "InventorDashboard"))
    ensures ToLower("inventor") == "inventor"
  {
    LowerCaseSegment("inventor");
  }

  lemma LawyerRoute()
    ensures Routes[9] == Route([Exact("lawyer"), Exact("dashboard")], Guarded(LawyerOrAdmin, "LawyerDashboard"))
    ensures ToLower("lawyer") == "lawyer"
  {
    LowerCaseSegment("lawyer");
  }

  /** The inventor's dashboard, where the root sends inventors, is behind the guard that
      admits inventors and administrators. */
  lemma InventorHomeShows(isLoading: bool, user: Option<User>)
    ensures Show(InventorHome, isLoading, user) ==
      ProtectedRoute(isLoading, user, Some(InventorOrAdmin), "InventorDashboard")
  {
    InventorRoute();
    DashboardShows(InventorHome, "inventor", 5, isLoading, user);
  }

  /** The attorney's dashboard, where the root sends attorneys, is behind the guard that
      admits attorneys and administrators. */
  lemma LawyerHomeShows(isLoading: bool, user: Option<User>)
    ensures Show(LawyerHome, isLoading, user) ==
      ProtectedRoute(isLoading, user, Some(LawyerOrAdmin), "LawyerDashboard")
  {
    LawyerRoute();
    DashboardShows(LawyerHome, "lawyer", 9, isLoading, user);
  }

  /** No two-segment route starts with "admin". */
  lemma NoAdminArea(j: nat)
    requires j < |Routes| && |Routes[j].segments| == 2
    ensures Routes[j].segments[0].Exact? && Routes[j].segments[0].name != "admin"
  {
  }

  /** No route matches an address of two pieces whose first is "admin", in any case. */
  lemma AdminAreaUnrouted(pieces: seq<string>)
    requires |pieces| == 2 && ToLower(pieces[0]) == "admin"
    ensures FirstMatch(pieces, 0).None?
  {
    forall j | 0 <= j < |Routes| ensures !SegmentsMatch(Routes[j].segments, pieces) {
      if |Routes[j].segments| == 2 {
        NoAdminArea(j);
        assert !SegmentMatches(Routes[j].segments[0], pieces[0]);
      }
    }
  }

  /** So the administrators' dashboard, where the root sends them, shows nothing,
      whatever the session's state. */
  lemma AdminHomeBlank(isLoading: bool, user: Option<User>)
    ensures Show(AdminHome, isLoading, user) == Blank
  {
    DashboardPieces("admin");
    LowerCaseSegment("admin");
    AdminAreaUnrouted(["admin", "dashboard"]);
  }

  /** The root decides before the session is restored: while the provider is still
      loading and has no user yet, "/" sends everyone to the welcome page. */
  lemma RootIgnoresLoading()
    ensures Show("/", true, None) == Redirect("/welcome")
  {
    assert Split("/", '/') == ["", ""] by {
      SplitJoin(["", ""], '/');
      assert Join(["", ""], "/") == "/";
    }
    assert PathSegments("/") == Some([]);
    assert SegmentsMatch(Routes[0].segments, []);
  }
}
