/**
 * The route table and the navigation guard. The nested table is flattened
 * with paths joined and meta merged as the router does: child paths are
 * joined to the parent's, and parent meta is merged into the child's.
 * Records are tried in the order they are added (children before their
 * parent, the catch-all last), not ranked by path score. A path resolves to
 * the first route it matches, with redirects followed. Before every
 * navigation, the guard decides from the target's meta flags, its name and
 * the session's two getters whether to proceed or where to go instead.
 */
module Router {
  import opened Wrappers
  import Auth

  datatype RouteName = Home | Login | POS | Admin

  /** A route's meta fields; a field the route does not set is missing. */
  datatype Meta = Meta(requiresAuth: Option<bool>, requiresAdmin: Option<bool>)

  const NoMeta := Meta(None, None)

  /** One entry of the route table as written: a path relative to the
      parent's, an optional name, an optional redirect, meta and children. */
  datatype RouteRecord = RouteRecord(path: string, name: Option<RouteName>, redirect: Option<string>,
                                     meta: Meta, children: seq<RouteRecord>)

  /** A route after flattening: its full path and its merged meta. */
  datatype Route = Route(path: string, name: Option<RouteName>, redirect: Option<string>, meta: Meta)

  /** The path pattern that matches every path. */
  const CatchAllPath := "/:pathMatch(.*)*"

  const Routes: seq<RouteRecord> := [
    RouteRecord("/", None, None, NoMeta, [
      RouteRecord("", Some(Home), None, NoMeta, [])
    ]),
    RouteRecord("/login", Some(Login), None, NoMeta, []),
    RouteRecord("/app", None, None, Meta(Some(true), None), [
      RouteRecord("", None, Some("/app/pos"), NoMeta, []),
      RouteRecord("pos", Some(POS), None, NoMeta, []),
      RouteRecord("admin", Some(Admin), None, Meta(None, Some(true)), [])
    ]),
    RouteRecord(CatchAllPath, None, Some("/"), NoMeta, [])
  ]

  /** A child's full path: an absolute child path stands alone, an empty
      one is the parent's, and any other is appended to the parent's with
      one slash between them. */
  function JoinPath(parent: string, child: string): (r: string)
    ensures |child| > 0 && child[0] == '/' ==> r == child
    ensures child == "" ==> r == parent
    ensures |child| > 0 && child[0] != '/' && |parent| > 0 && parent[|parent| - 1] == '/' ==> r == parent + child
    ensures |child| > 0 && child[0] != '/' && (|parent| == 0 || parent[|parent| - 1] != '/') ==> r == parent + "/" + child
  {
    if |child| > 0 && child[0] == '/' then child
    else if child == "" then parent
    else if |parent| > 0 && parent[|parent| - 1] == '/' then parent + child
    else parent + "/" + child
  }

  /** The meta of a matched child: its own fields, and its parent's where it
      sets none. */
  function MergeMeta(parent: Meta, child: Meta): (r: Meta)
    ensures child.requiresAuth.Some? ==> r.requiresAuth == child.requiresAuth
    ensures child.requiresAuth.None? ==> r.requiresAuth == parent.requiresAuth
    ensures child.requiresAdmin.Some? ==> r.requiresAdmin == child.requiresAdmin
    ensures child.requiresAdmin.None? ==> r.requiresAdmin == parent.requiresAdmin
  {
    Meta(if child.requiresAuth.Some? then child.requiresAuth else parent.requiresAuth,
         if child.requiresAdmin.Some? then child.requiresAdmin else parent.requiresAdmin)
  }

  /** The routes of `records` in the order they are tried: each record's
      descendants before the record itself. `parent` is the enclosing
      route's full path and merged meta, if any. */
  function Flatten(records: seq<RouteRecord>, parent: Option<(string, Meta)>): (r: seq<Route>)
    decreases records
  {
    if records == [] then []
    else
      var rec := records[0];
      var path := if parent.Some? then JoinPath(parent.value.0, rec.path) else rec.path;
      var meta := if parent.Some? then MergeMeta(parent.value.1, rec.meta) else rec.meta;
      Flatten(rec.children, Some((path, meta)))
        + [Route(path, rec.name, rec.redirect, meta)]
        + Flatten(records[1..], parent)
  }

  /** A path without its trailing slash: matching ignores one. */
  function TrimSlash(p: string): (r: string)
    ensures r == p || r + "/" == p
  {
    if |p| > 0 && p[|p| - 1] == '/' then p[..|p| - 1] else p
  }

  /** Whether a path is one the route stands for: the catch-all stands for
      every path, any other route for its own path up to one trailing slash. */
  predicate Matches(route: Route, path: string)
    ensures route.path == CatchAllPath || route.path == path ==> Matches(route, path)
    ensures Matches(route, path) && route.path != CatchAllPath ==>
      route.path == path || route.path == path + "/" || route.path + "/" == path
  {
    route.path == CatchAllPath || TrimSlash(route.path) == TrimSlash(path)
  }

  /** The first route of `routes` that `path` matches. */
  function FirstMatch(routes: seq<Route>, path: string): (r: Option<Route>)
    ensures r.Some? ==> r.value in routes && Matches(r.value, path)
    ensures |routes| > 0 && Matches(routes[|routes| - 1], path) ==> r.Some?
  {
    if routes == [] then None
    else if Matches(routes[0], path) then Some(routes[0])
    else FirstMatch(routes[1..], path)
  }

  /** The search finds a route exactly when some route matches, and then the
      one at the lowest position that matches. */
  lemma {:induction false} FirstMatchIsFirst(routes: seq<Route>, path: string)
    ensures FirstMatch(routes, path).None? <==> forall i | 0 <= i < |routes| :: !Matches(routes[i], path)
    ensures FirstMatch(routes, path).Some? ==>
      exists i | 0 <= i < |routes| :: routes[i] == FirstMatch(routes, path).value && Matches(routes[i], path)
        && forall j | 0 <= j < i :: !Matches(routes[j], path)
  {
    if routes != [] && !Matches(routes[0], path) {
      FirstMatchIsFirst(routes[1..], path);
      var r := FirstMatch(routes, path);
      if r.Some? {
        var i :| 0 <= i < |routes[1..]| && routes[1..][i] == r.value && Matches(routes[1..][i], path)
          && forall j | 0 <= j < i :: !Matches(routes[1..][j], path);
        assert routes[i + 1] == r.value;
        assert forall j | 0 <= j < i + 1 :: !Matches(routes[j], path) by {
          forall j | 0 <= j < i + 1 ensures !Matches(routes[j], path) {
            if j > 0 { assert routes[j] == routes[1..][j - 1]; }
          }
        }
      } else {
        forall i | 0 <= i < |routes| ensures !Matches(routes[i], path) {
          if i > 0 { assert routes[i] == routes[1..][i - 1]; }
        }
      }
    } else if routes != [] {
      assert routes[0] == FirstMatch(routes, path).value;
    }
  }

  const AppMeta := Meta(Some(true), None)

  /** The routes of the flattened table, in the order they are tried. */
  const HomeRoute := Route("/", Some(Home), None, NoMeta)
  const PublicLayout := Route("/", None, None, NoMeta)
  const LoginRoute := Route("/login", Some(Login), None, NoMeta)
  const AppIndex := Route("/app", None, Some("/app/pos"), AppMeta)
  const PosRoute := Route("/app/pos", Some(POS), None, AppMeta)
  const AdminRoute := Route("/app/admin", Some(Admin), None, Meta(Some(true), Some(true)))
  const AppLayout := Route("/app", None, None, AppMeta)
  const NotFound := Route(CatchAllPath, None, Some("/"), NoMeta)

  const Table: seq<Route> :=
    [HomeRoute, PublicLayout, LoginRoute, AppIndex, PosRoute, AdminRoute, AppLayout, NotFound]

  /** The table's routes in the order they are tried: the home child before
      its layout, the three children of /app before /app, the catch-all last. */
  lemma FlattenedTable()
    ensures Flatten(Routes, None) == Table
  {
    FlattenedHome();
    FlattenedApp();
    assert Flatten(Routes[3..], None) == [Table[7]];
    assert Flatten(Routes[2..], None) == Table[3..];
    assert Flatten(Routes[1..], None) == Table[2..];
  }

  lemma FlattenedHome()
    ensures Flatten(Routes[0].children, Some(("/", NoMeta))) == [Table[0]]
  {
    assert JoinPath("/", "") == "/";
  }

  lemma FlattenedApp()
    ensures Flatten(Routes[2].children, Some(("/app", AppMeta))) == Table[3..6]
  {
    var app := Routes[2];
    var appMeta := AppMeta;
    assert JoinPath("/app", "admin") == "/app/admin";
    assert JoinPath("/app", "pos") == "/app/pos";
    FlattenLeaf(app.children[2], ("/app", appMeta));
    assert app.children[2..] == [app.children[2]];
    assert Flatten(app.children[2..], Some(("/app", appMeta))) == [Table[5]];
    assert Flatten(app.children[1..], Some(("/app", appMeta))) == [Table[4], Table[5]];
  }

  /** Two routes other than the catch-all that match the same path agree on
      their paths up to a trailing slash. */
  lemma SharedMatchSameTrim(r1: Route, r2: Route, path: string)
    requires r1.path != CatchAllPath && r2.path != CatchAllPath
    requires Matches(r1, path) && Matches(r2, path)
    ensures TrimSlash(r1.path) == TrimSlash(r2.path)
  {
  }

  /** A path the router writes in its canonical form: the root, or a path
      that does not end in a slash. */
  predicate Canonical(p: string)
  {
    p == "/" || (|p| > 0 && p[|p| - 1] != '/')
  }

  /** On canonical paths, dropping a trailing slash loses nothing. */
  lemma TrimSlashInjective(x: string, y: string)
    requires Canonical(x) && Canonical(y)
    requires TrimSlash(x) == TrimSlash(y)
    ensures x == y
  {
    if x == "/" || y == "/" {
      assert |TrimSlash(x)| == 0 && |TrimSlash(y)| == 0;
    }
  }

  /** Every path of the table but the catch-all is canonical. */
  lemma TablePathsCanonical(k: int)
    requires 0 <= k < |Table| && Table[k].path != CatchAllPath
    ensures Canonical(Table[k].path)
  {
    if k == 2 || 3 < k < 7 {
      assert Table[k].path[|Table[k].path| - 1] != '/';
    }
  }

  /** Apart from the catch-all, which is tried last in any order, routes of
      the table with different paths never match the same path. So the order
      in which such routes are tried cannot change which one a path finds:
      only the order among routes sharing a path matters. */
  lemma DistinctPathsNeverShareAMatch(i: int, j: int, path: string)
    requires 0 <= i < |Table| && 0 <= j < |Table|
    requires Table[i].path != CatchAllPath && Table[j].path != CatchAllPath
    requires Table[i].path != Table[j].path
    ensures !(Matches(Table[i], path) && Matches(Table[j], path))
  {
    if Matches(Table[i], path) && Matches(Table[j], path) {
      SharedMatchSameTrim(Table[i], Table[j], path);
      TablePathsCanonical(i);
      TablePathsCanonical(j);
      TrimSlashInjective(Table[i].path, Table[j].path);
    }
  }

  lemma FlattenLeaf(rec: RouteRecord, parent: (string, Meta))
    requires rec.children == []
    ensures Flatten([rec], Some(parent)) ==
      [Route(JoinPath(parent.0, rec.path), rec.name, rec.redirect, MergeMeta(parent.1, rec.meta))]
  {
    assert [rec][1..] == [];
  }

  /** A path's route with redirects followed, giving up after `fuel`
      redirects. */
  function Resolve(path: string, fuel: nat): (r: Option<Route>)
    ensures r.Some? ==> r.value in Table && r.value.redirect.None?
    decreases fuel
  {
    match FirstMatch(Table, path)
    case None => None
    case Some(route) =>
      if route.redirect.None? then Some(route)
      else if fuel == 0 then None
      else Resolve(route.redirect.value, fuel - 1)
  }

  /** The redirects of the table are at most one deep. */
  const RedirectFuel := 1

  /** The route a named navigation goes to. */
  function Named(name: RouteName): (r: Route)
    ensures r in Table && r.name == Some(name) && r.redirect.None?
  {
    match name
    case Home => HomeRoute
    case Login => LoginRoute
    case POS => PosRoute
    case Admin => AdminRoute
  }

  /** A meta flag as the guard reads it: set and true. */
  predicate Flag(o: Option<bool>) { o == Some(true) }

  /** What the guard tells the router. */
  datatype Decision = Proceed | ToNamed(name: RouteName) | ToPath(path: string)

  /** The guard's decision for a target from its meta, its name and the
      session's two getters; the first rule that applies wins. */
  function Decide(to: Route, isAuthenticated: bool, isAdmin: bool): (d: Decision)
    // rule 1: an admin-only target and a non-admin session go to the point of sale
    ensures Flag(to.meta.requiresAdmin) && !isAdmin ==> d == ToNamed(POS)
    // rule 2: a protected target and a signed-out session go to the login screen
    ensures !(Flag(to.meta.requiresAdmin) && !isAdmin) && Flag(to.meta.requiresAuth) && !isAuthenticated ==>
      d == ToNamed(Login)
    // rule 3: a signed-in session asking for the login screen or home goes to the point of sale
    ensures (&& !(Flag(to.meta.requiresAdmin) && !isAdmin)
             && !(Flag(to.meta.requiresAuth) && !isAuthenticated)
             && to.name in {Some(Login), Some(Home)} && isAuthenticated) ==> d == ToPath(Auth.PosHome)
    // otherwise the navigation goes ahead
    ensures d == Proceed <==>
      && !(Flag(to.meta.requiresAdmin) && !isAdmin)
      && !(Flag(to.meta.requiresAuth) && !isAuthenticated)
      && !(to.name in {Some(Login), Some(Home)} && isAuthenticated)
  {
    if Flag(to.meta.requiresAdmin) && !isAdmin then ToNamed(POS)
    else if Flag(to.meta.requiresAuth) && !isAuthenticated then ToNamed(Login)
    else if (to.name == Some(Login) || to.name == Some(Home)) && isAuthenticated then ToPath(Auth.PosHome)
    else Proceed
  }

  /** The guard with the store's getters. */
  function Guard(to: Route, s: Auth.Session): (d: Decision)
    // a route let through has every flag it carries satisfied by the session
    ensures d == Proceed ==>
      (Flag(to.meta.requiresAuth) ==> Auth.IsAuthenticated(s)) && (Flag(to.meta.requiresAdmin) ==> Auth.IsAdmin(s))
  {
    Decide(to, Auth.IsAuthenticated(s), Auth.IsAdmin(s))
  }

  /** Where a redirecting decision sends the navigation. */
  function Redirected(d: Decision): Option<Route>
    requires !d.Proceed?
  {
    match d
    case ToNamed(name) => Some(Named(name))
    case ToPath(path) => Resolve(path, RedirectFuel)
  }

  /** The route a navigation to `to` ends on, running the guard again on
      every redirect, or `None` when it has not settled after `hops`
      redirects. */
  function Settle(to: Route, s: Auth.Session, hops: nat): (r: Option<Route>)
    ensures r.Some? ==> Guard(r.value, s) == Proceed
    decreases hops
  {
    var d := Guard(to, s);
    if d.Proceed? then Some(to)
    else if hops == 0 then None
    else match Redirected(d)
      case None => None
      case Some(next) => Settle(next, s, hops - 1)
  }

  /** A navigation to a path as the user or the application asks for it. */
  function Navigate(path: string, s: Auth.Session): Option<Route>
  {
    match Resolve(path, RedirectFuel)
    case None => None
    case Some(to) => Settle(to, s, 2)
  }

  /** Where a navigation to `to` lands, said directly: a signed-out session
      is stopped at the login screen by every protected route; a signed-in
      one is sent from the login screen and home to the point of sale, and
      from an admin-only route there too unless it holds the admin role. */
  function Landing(to: Route, s: Auth.Session): Route
  {
    if !Auth.IsAuthenticated(s) then
      if Flag(to.meta.requiresAuth) then Named(Login) else to
    else if to.name == Some(Login) || to.name == Some(Home) then Named(POS)
    else if Flag(to.meta.requiresAdmin) && !Auth.IsAdmin(s) then Named(POS)
    else to
  }

  /** Every navigation inside the table settles within two redirects, where
      `Landing` says. */
  lemma SettlesAtLanding(to: Route, s: Auth.Session)
    requires to in Table && to.redirect.None?
    ensures Settle(to, s, 2) == Some(Landing(to, s))
  {
    if to == HomeRoute || to == LoginRoute {
      SettlesFromEntry(to, s);
    } else if to == PosRoute {
      SettlesFromPos(s);
    } else if to == AdminRoute {
      SettlesFromAdmin(s);
    } else if to == AppLayout {
      SettlesFromLayout(s);
    } else {
      assert to == PublicLayout;
    }
  }

  lemma SettlesFromPos(s: Auth.Session)
    ensures Settle(PosRoute, s, 2) == Some(Landing(PosRoute, s))
  {
    if !Auth.IsAuthenticated(s) {
      SettlesAtLogin(s, 1);
    }
  }

  lemma SettlesAtLogin(s: Auth.Session, hops: nat)
    requires !Auth.IsAuthenticated(s)
    ensures Settle(LoginRoute, s, hops) == Some(LoginRoute)
  {
  }

  lemma SettlesFromEntry(to: Route, s: Auth.Session)
    requires to == HomeRoute || to == LoginRoute
    ensures Settle(to, s, 2) == Some(Landing(to, s))
  {
    if Auth.IsAuthenticated(s) {
      assert Guard(to, s) == ToPath(Auth.PosHome);
      ResolvesToPos(Auth.PosHome);
      SettlesFromPos(s);
    }
  }

  lemma SettlesFromAdmin(s: Auth.Session)
    ensures Settle(AdminRoute, s, 2) == Some(Landing(AdminRoute, s))
  {
    if !Auth.IsAuthenticated(s) {
      SettlesAtLogin(s, 0);
      SettlesAtLogin(s, 1);
    }
  }

  lemma SettlesFromLayout(s: Auth.Session)
    ensures Settle(AppLayout, s, 2) == Some(Landing(AppLayout, s))
  {
    if !Auth.IsAuthenticated(s) {
      SettlesAtLogin(s, 1);
    }
  }

  // The lemmas about particular paths take the path as a parameter fixed by
  // their precondition: with a literal argument the verifier evaluates
  // FirstMatch over the whole table at every mention, which costs far more.

  lemma HomeFirst(p: string)
    requires p == "/"
    ensures FirstMatch(Table, p) == Some(HomeRoute)
  {
    assert TrimSlash(p) == [];
    assert Matches(HomeRoute, p);
  }

  lemma PosFirst(p: string)
    requires p == "/app/pos"
    ensures FirstMatch(Table, p) == Some(PosRoute)
  {
    assert TrimSlash(p) == p;
    assert FirstMatch(Table[4..], p) == Some(PosRoute);
    assert FirstMatch(Table[3..], p) == Some(PosRoute) by { NoMatch(AppIndex, p); }
    assert FirstMatch(Table[2..], p) == Some(PosRoute) by { NoMatch(LoginRoute, p); }
    assert FirstMatch(Table[1..], p) == Some(PosRoute) by { NoMatch(PublicLayout, p); }
    NoMatch(HomeRoute, p);
  }

  /** A route whose path, trimmed, is shorter than the trimmed path does not
      match it. */
  lemma NoMatch(route: Route, p: string)
    requires route.path != CatchAllPath && |route.path| < |TrimSlash(p)|
    ensures !Matches(route, p)
  {
  }

  lemma ResolvesToPos(p: string)
    requires p == "/app/pos"
    ensures Resolve(p, RedirectFuel) == Some(PosRoute)
  {
    PosFirst(p);
  }

  /** Every path resolves: an unmatched one through the catch-all to home. */
  lemma ResolvesEverywhere(path: string)
    ensures Resolve(path, RedirectFuel).Some?
  {
    assert Matches(Table[|Table| - 1], path);
    var route := FirstMatch(Table, path).value;
    if route.redirect.Some? {
      var target := route.redirect.value;
      RedirectTargetsInTable(route);
      if target == "/" {
        HomeFirst(target);
      } else {
        PosFirst(target);
      }
    }
  }

  /** The table redirects only to home and to the point of sale. */
  lemma RedirectTargetsInTable(route: Route)
    requires route in Table && route.redirect.Some?
    ensures route.redirect.value == "/" || route.redirect.value == "/app/pos"
  {
  }

  lemma AdminFirst(p: string)
    requires p == "/app/admin"
    ensures FirstMatch(Table, p) == Some(AdminRoute)
  {
    assert TrimSlash(p) == p;
    assert FirstMatch(Table[5..], p) == Some(AdminRoute);
    assert FirstMatch(Table[4..], p) == Some(AdminRoute) by { NoMatch(PosRoute, p); }
    assert FirstMatch(Table[3..], p) == Some(AdminRoute) by { NoMatch(AppIndex, p); }
    assert FirstMatch(Table[2..], p) == Some(AdminRoute) by { NoMatch(LoginRoute, p); }
    assert FirstMatch(Table[1..], p) == Some(AdminRoute) by { NoMatch(PublicLayout, p); }
    NoMatch(HomeRoute, p);
  }

  lemma LoginFirst(p: string)
    requires p == "/login"
    ensures FirstMatch(Table, p) == Some(LoginRoute)
  {
    assert TrimSlash(p) == p;
    assert FirstMatch(Table[2..], p) == Some(LoginRoute);
    assert FirstMatch(Table[1..], p) == Some(LoginRoute) by { NoMatch(PublicLayout, p); }
    NoMatch(HomeRoute, p);
  }

  /** "/app", with or without its trailing slash, is sent on to the point of
      sale. */
  lemma AppRedirectsToPos(p: string)
    requires p == "/app" || p == "/app/"
    ensures FirstMatch(Table, p) == Some(AppIndex)
    ensures Resolve(p, RedirectFuel) == Some(PosRoute)
  {
    AppFirst(p);
    PosFirst(AppIndex.redirect.value);
  }

  lemma AppFirst(p: string)
    requires p == "/app" || p == "/app/"
    ensures FirstMatch(Table, p) == Some(AppIndex)
  {
    assert TrimSlash(p) == "/app";
    assert Matches(AppIndex, p);
    assert FirstMatch(Table[2..], p) == Some(AppIndex) by {
      assert TrimSlash(LoginRoute.path) == LoginRoute.path;
      assert |LoginRoute.path| != |TrimSlash(p)|;
    }
    assert FirstMatch(Table[1..], p) == Some(AppIndex) by { NoMatch(PublicLayout, p); }
    NoMatch(HomeRoute, p);
  }

  /** A path no route of the table matches but the catch-all goes home. */
  lemma UnknownGoesHome(path: string)
    requires forall i | 0 <= i < |Table| - 1 :: !Matches(Table[i], path)
    ensures FirstMatch(Table, path) == Some(NotFound)
    ensures Resolve(path, RedirectFuel) == Some(HomeRoute)
  {
    HomeFirst(NotFound.redirect.value);
  }

  /** The flags the table gives its named routes: the point of sale and the
      admin screen inherit `requiresAuth` from "/app", only the admin screen
      carries `requiresAdmin`, home and the login screen carry neither. */
  lemma RouteFlags()
    ensures forall r | r in Flatten(Routes, None) :: Flag(r.meta.requiresAdmin) <==> r.name == Some(Admin)
    ensures forall r | r in Flatten(Routes, None) && r.name in {Some(POS), Some(Admin)} :: Flag(r.meta.requiresAuth)
    ensures forall r | r in Flatten(Routes, None) && r.name in {Some(Home), Some(Login)} ::
      !Flag(r.meta.requiresAuth) && !Flag(r.meta.requiresAdmin)
  {
    FlattenedTable();
  }

  /** The guard on the four named routes, rule by rule. */
  lemma GuardOnNamedRoutes(s: Auth.Session)
    ensures Guard(Named(Admin), s) ==
      if !Auth.IsAdmin(s) then ToNamed(POS) else if !Auth.IsAuthenticated(s) then ToNamed(Login) else Proceed
    ensures Guard(Named(POS), s) == if Auth.IsAuthenticated(s) then Proceed else ToNamed(Login)
    ensures Guard(Named(Login), s) == if Auth.IsAuthenticated(s) then ToPath(Auth.PosHome) else Proceed
    ensures Guard(Named(Home), s) == if Auth.IsAuthenticated(s) then ToPath(Auth.PosHome) else Proceed
  {
  }

  /** The decision reads nothing of the session but its two getters. */
  lemma GuardReadsOnlyGetters(to: Route, s1: Auth.Session, s2: Auth.Session)
    requires Auth.IsAuthenticated(s1) == Auth.IsAuthenticated(s2) && Auth.IsAdmin(s1) == Auth.IsAdmin(s2)
    ensures Guard(to, s1) == Guard(to, s2)
  {
  }

  /** Every navigation, to any path, settles within two redirects of the
      guard, where `Landing` says. */
  lemma NavigateLands(path: string, s: Auth.Session)
    ensures Resolve(path, RedirectFuel).Some?
    ensures Navigate(path, s) == Some(Landing(Resolve(path, RedirectFuel).value, s))
  {
    ResolvesEverywhere(path);
    SettlesAtLanding(Resolve(path, RedirectFuel).value, s);
  }

  /** Two redirects are needed: a signed-out, non-admin session asking for
      the admin screen is sent to the point of sale and from there to the
      login screen. */
  lemma TwoRedirectsNeeded()
    ensures Settle(AdminRoute, Auth.SignedOut, 1) == None
    ensures Settle(AdminRoute, Auth.SignedOut, 2) == Some(LoginRoute)
  {
    SettlesAtLogin(Auth.SignedOut, 0);
  }

  /** The redirect a successful login asks for is let through at once, to
      the admin screen or the point of sale. */
  lemma LoginRedirectProceeds(credentials: Auth.Credentials, response: Auth.LoginResponse, decoding: Auth.Decoding)
    requires Auth.AttemptLogin(credentials, response, decoding).Success?
    ensures var s := Auth.AttemptLogin(credentials, response, decoding).value;
      Navigate(Auth.HomeFor(s.userRoles), s) == Some(if Auth.IsAdmin(s) then AdminRoute else PosRoute)
  {
    var s := Auth.AttemptLogin(credentials, response, decoding).value;
    if Auth.IsAdmin(s) {
      AdminFirst(Auth.HomeFor(s.userRoles));
    } else {
      PosFirst(Auth.HomeFor(s.userRoles));
    }
  }

  /** After logout the login screen it sends to is let through. */
  lemma LogoutLandsOnLogin()
    ensures Navigate(Auth.LoginPath, Auth.SignedOut) == Some(LoginRoute)
  {
    LoginFirst(Auth.LoginPath);
  }
}
