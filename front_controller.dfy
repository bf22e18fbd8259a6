/** The front controller (`public/index.php`): it starts the session,
    registers the routes, works out the request path, turns away requests
    that need a login, and hands the rest to the router. */
module FrontController {
  import opened Options
  import opened Strings
  import opened Authentication
  import opened Routing
  import PathHelpers

  /** One `$router->get(...)` or `$router->post(...)` line. */
  datatype Route = Route(verb: string, path: string, action: string)

  /** The effect of registering one route on the router's table. */
  function Add(routes: map<string, map<string, string>>, r: Route): map<string, map<string, string>> {
    Register(routes, r.verb, r.path, r.action)
  }

  /** The table after registering the first `k` routes of `rs` in order. */
  function RegisteredPrefix(routes: map<string, map<string, string>>, rs: seq<Route>, k: nat): map<string, map<string, string>>
    requires k <= |rs|
  {
    if k == 0 then routes else Add(RegisteredPrefix(routes, rs, k - 1), rs[k - 1])
  }

  /** The table after registering `rs` in order. */
  function Registered(routes: map<string, map<string, string>>, rs: seq<Route>): map<string, map<string, string>> {
    RegisteredPrefix(routes, rs, |rs|)
  }

  /** The action of the last registration of `verb` and `path` in `rs`. */
  function LastAction(rs: seq<Route>, verb: string, path: string): (a: Option<string>)
    ensures a.Some? ==> exists i :: 0 <= i < |rs| && rs[i] == Route(verb, path, a.value)
  {
    if rs == [] then None
    else if rs[|rs| - 1].verb == verb && rs[|rs| - 1].path == path then Some(rs[|rs| - 1].action)
    else
      var a := LastAction(rs[..|rs| - 1], verb, path);
      if a.Some? then
        var i :| 0 <= i < |rs| - 1 && rs[..|rs| - 1][i] == Route(verb, path, a.value);
        assert rs[i] == Route(verb, path, a.value);
        a
      else a
  }

  /** The table after `k` registrations depends on the first `k` routes only. */
  lemma {:induction false} PrefixDependsOnTake(routes: map<string, map<string, string>>, rs: seq<Route>, ss: seq<Route>, k: nat)
    requires k <= |rs| && k <= |ss| && rs[..k] == ss[..k]
    ensures RegisteredPrefix(routes, rs, k) == RegisteredPrefix(routes, ss, k)
  {
    if k > 0 {
      assert rs[k - 1] == rs[..k][k - 1] == ss[..k][k - 1] == ss[k - 1];
      assert rs[..k - 1] == rs[..k][..k - 1] == ss[..k][..k - 1] == ss[..k - 1];
      PrefixDependsOnTake(routes, rs, ss, k - 1);
    }
  }

  /** Registering routes one after another: a later registration of the
      same verb and path replaces an earlier one, and pairs never
      registered keep what the table held before. */
  lemma {:induction false} RegisteredLookup(routes: map<string, map<string, string>>, rs: seq<Route>, verb: string, path: string)
    ensures LastAction(rs, verb, path).Some? ==>
      path in Table(Registered(routes, rs), verb) && Table(Registered(routes, rs), verb)[path] == LastAction(rs, verb, path).value
    ensures LastAction(rs, verb, path).None? ==>
      (path in Table(Registered(routes, rs), verb) <==> path in Table(routes, verb))
      && (path in Table(routes, verb) ==> Table(Registered(routes, rs), verb)[path] == Table(routes, verb)[path])
  {
    if rs != [] {
      var n := |rs|;
      PrefixDependsOnTake(routes, rs, rs[..n - 1], n - 1);
      RegisteredLookup(routes, rs[..n - 1], verb, path);
    }
  }

  lemma {:induction false} RegisteredConcat(routes: map<string, map<string, string>>, a: seq<Route>, b: seq<Route>)
    ensures Registered(routes, a + b) == Registered(Registered(routes, a), b)
    decreases |b|
  {
    if b == [] {
      assert a + b == a;
    } else {
      var b' := b[..|b| - 1];
      assert (a + b)[..|a + b| - 1] == (a + b')[..|a + b'|];
      PrefixDependsOnTake(routes, a + b, a + b', |a + b| - 1);
      RegisteredConcat(routes, a, b');
      PrefixDependsOnTake(Registered(routes, a), b, b', |b'|);
      assert (a + b)[|a + b| - 1] == b[|b| - 1];
    }
  }

  /** One more registration, of the route at index `k`. */
  lemma RegisterStep(routes: map<string, map<string, string>>, rs: seq<Route>, k: nat, verb: string, path: string, action: string)
    requires k < |rs| && rs[k] == Route(verb, path, action)
    ensures RegisteredPrefix(routes, rs, k + 1) == Register(RegisteredPrefix(routes, rs, k), verb, path, action)
  {
  }

  /** Lines 20-22: the routes of logging in and out. */
  function AuthRoutes(): seq<Route> {
    [ Route("GET", "/login", "AuthController@showLogin"),
      Route("POST", "/login", "AuthController@login"),
      Route("GET", "/logout", "AuthController@logout") ]
  }

  /** Registers the routes of logging in and out. */
  method RegisterAuthRoutes(router: Router)
    modifies router
    ensures router.routes == Registered(old(router.routes), AuthRoutes())
  {
    ghost var r0 := router.routes;
    ghost var rs := AuthRoutes();
    router.Get("/login", "AuthController@showLogin");
    RegisterStep(r0, rs, 0, "GET", "/login", "AuthController@showLogin");
    router.Post("/login", "AuthController@login");
    RegisterStep(r0, rs, 1, "POST", "/login", "AuthController@login");
    router.Get("/logout", "AuthController@logout");
    RegisterStep(r0, rs, 2, "GET", "/logout", "AuthController@logout");
  }

  /** Lines 57-58: the routes of the dashboard. */
  function DashboardRoutes(): seq<Route> {
    [ Route("GET", "/", "DashboardController@index"),
      Route("GET", "/dashboard", "DashboardController@index") ]
  }

  /** Registers the routes of the dashboard. */
  method RegisterDashboardRoutes(router: Router)
    modifies router
    ensures router.routes == Registered(old(router.routes), DashboardRoutes())
  {
    ghost var r0 := router.routes;
    ghost var rs := DashboardRoutes();
    router.Get("/", "DashboardController@index");
    RegisterStep(r0, rs, 0, "GET", "/", "DashboardController@index");
    router.Get("/dashboard", "DashboardController@index");
    RegisterStep(r0, rs, 1, "GET", "/dashboard", "DashboardController@index");
  }

  /** Lines 61-68: the routes of members. */
  function MemberRoutes(): seq<Route> {
    [ Route("GET", "/members", "MemberController@index"),
      Route("GET", "/members/create", "MemberController@create"),
      Route("POST", "/members/store", "MemberController@store"),
      Route("GET", "/members/edit", "MemberController@edit"),
      Route("POST", "/members/update", "MemberController@update"),
      Route("POST", "/members/delete", "MemberController@delete"),
      Route("GET", "/members/search", "MemberController@search"),
      Route("GET", "/members/view", "MemberController@show") ]
  }

  /** Registers the routes of members. */
  method RegisterMemberRoutes(router: Router)
    modifies router
    ensures router.routes == Registered(old(router.routes), MemberRoutes())
  {
    ghost var r0 := router.routes;
    ghost var rs := MemberRoutes();
    router.Get("/members", "MemberController@index");
    RegisterStep(r0, rs, 0, "GET", "/members", "MemberController@index");
    router.Get("/members/create", "MemberController@create");
    RegisterStep(r0, rs, 1, "GET", "/members/create", "MemberController@create");
    router.Post("/members/store", "MemberController@store");
    RegisterStep(r0, rs, 2, "POST", "/members/store", "MemberController@store");
    router.Get("/members/edit", "MemberController@edit");
    RegisterStep(r0, rs, 3, "GET", "/members/edit", "MemberController@edit");
    router.Post("/members/update", "MemberController@update");
    RegisterStep(r0, rs, 4, "POST", "/members/update", "MemberController@update");
    router.Post("/members/delete", "MemberController@delete");
    RegisterStep(r0, rs, 5, "POST", "/members/delete", "MemberController@delete");
    router.Get("/members/search", "MemberController@search");
    RegisterStep(r0, rs, 6, "GET", "/members/search", "MemberController@search");
    router.Get("/members/view", "MemberController@show");
    RegisterStep(r0, rs, 7, "GET", "/members/view", "MemberController@show");
  }

  /** Lines 71-77: the routes of trainers. */
  function TrainerRoutes(): seq<Route> {
    [ Route("GET", "/trainers", "TrainerController@index"),
      Route("GET", "/trainers/create", "TrainerController@create"),
      Route("POST", "/trainers/store", "TrainerController@store"),
      Route("GET", "/trainers/edit", "TrainerController@edit"),
      Route("POST", "/trainers/update", "TrainerController@update"),
      Route("POST", "/trainers/delete", "TrainerController@delete"),
      Route("GET", "/trainers/view", "TrainerController@show") ]
  }

  /** Registers the routes of trainers. */
  method RegisterTrainerRoutes(router: Router)
    modifies router
    ensures router.routes == Registered(old(router.routes), TrainerRoutes())
  {
    ghost var r0 := router.routes;
    ghost var rs := TrainerRoutes();
    router.Get("/trainers", "TrainerController@index");
    RegisterStep(r0, rs, 0, "GET", "/trainers", "TrainerController@index");
    router.Get("/trainers/create", "TrainerController@create");
    RegisterStep(r0, rs, 1, "GET", "/trainers/create", "TrainerController@create");
    router.Post("/trainers/store", "TrainerController@store");
    RegisterStep(r0, rs, 2, "POST", "/trainers/store", "TrainerController@store");
    router.Get("/trainers/edit", "TrainerController@edit");
    RegisterStep(r0, rs, 3, "GET", "/trainers/edit", "TrainerController@edit");
    router.Post("/trainers/update", "TrainerController@update");
    RegisterStep(r0, rs, 4, "POST", "/trainers/update", "TrainerController@update");
    router.Post("/trainers/delete", "TrainerController@delete");
    RegisterStep(r0, rs, 5, "POST", "/trainers/delete", "TrainerController@delete");
    router.Get("/trainers/view", "TrainerController@show");
    RegisterStep(r0, rs, 6, "GET", "/trainers/view", "TrainerController@show");
  }

  /** Lines 80-84: the routes of memberships. */
  function MembershipRoutes(): seq<Route> {
    [ Route("GET", "/memberships", "MembershipController@index"),
      Route("GET", "/memberships/create", "MembershipController@create"),
      Route("POST", "/memberships/store", "MembershipController@store"),
      Route("GET", "/memberships/expiring", "MembershipController@expiring"),
      Route("POST", "/memberships/renew", "MembershipController@renew") ]
  }

  /** Registers the routes of memberships. */
  method RegisterMembershipRoutes(router: Router)
    modifies router
    ensures router.routes == Registered(old(router.routes), MembershipRoutes())
  {
    ghost var r0 := router.routes;
    ghost var rs := MembershipRoutes();
    router.Get("/memberships", "MembershipController@index");
    RegisterStep(r0, rs, 0, "GET", "/memberships", "MembershipController@index");
    router.Get("/memberships/create", "MembershipController@create");
    RegisterStep(r0, rs, 1, "GET", "/memberships/create", "MembershipController@create");
    router.Post("/memberships/store", "MembershipController@store");
    RegisterStep(r0, rs, 2, "POST", "/memberships/store", "MembershipController@store");
    router.Get("/memberships/expiring", "MembershipController@expiring");
    RegisterStep(r0, rs, 3, "GET", "/memberships/expiring", "MembershipController@expiring");
    router.Post("/memberships/renew", "MembershipController@renew");
    RegisterStep(r0, rs, 4, "POST", "/memberships/renew", "MembershipController@renew");
  }

  /** Lines 87-94: the routes of workout plans. */
  function WorkoutPlanRoutes(): seq<Route> {
    [ Route("GET", "/workout-plans", "WorkoutPlanController@index"),
      Route("GET", "/workout-plans/create", "WorkoutPlanController@create"),
      Route("POST", "/workout-plans/create", "WorkoutPlanController@store"),
      Route("GET", "/workout-plans/edit", "WorkoutPlanController@edit"),
      Route("POST", "/workout-plans/update", "WorkoutPlanController@update"),
      Route("POST", "/workout-plans/update-status", "WorkoutPlanController@updateStatus"),
      Route("POST", "/workout-plans/delete", "WorkoutPlanController@delete"),
      Route("GET", "/workout-plans/view", "WorkoutPlanController@show") ]
  }

  /** Registers the routes of workout plans. */
  method RegisterWorkoutPlanRoutes(router: Router)
    modifies router
    ensures router.routes == Registered(old(router.routes), WorkoutPlanRoutes())
  {
    ghost var r0 := router.routes;
    ghost var rs := WorkoutPlanRoutes();
    router.Get("/workout-plans", "WorkoutPlanController@index");
    RegisterStep(r0, rs, 0, "GET", "/workout-plans", "WorkoutPlanController@index");
    router.Get("/workout-plans/create", "WorkoutPlanController@create");
    RegisterStep(r0, rs, 1, "GET", "/workout-plans/create", "WorkoutPlanController@create");
    router.Post("/workout-plans/create", "WorkoutPlanController@store");
    RegisterStep(r0, rs, 2, "POST", "/workout-plans/create", "WorkoutPlanController@store");
    router.Get("/workout-plans/edit", "WorkoutPlanController@edit");
    RegisterStep(r0, rs, 3, "GET", "/workout-plans/edit", "WorkoutPlanController@edit");
    router.Post("/workout-plans/update", "WorkoutPlanController@update");
    RegisterStep(r0, rs, 4, "POST", "/workout-plans/update", "WorkoutPlanController@update");
    router.Post("/workout-plans/update-status", "WorkoutPlanController@updateStatus");
    RegisterStep(r0, rs, 5, "POST", "/workout-plans/update-status", "WorkoutPlanController@updateStatus");
    router.Post("/workout-plans/delete", "WorkoutPlanController@delete");
    RegisterStep(r0, rs, 6, "POST", "/workout-plans/delete", "WorkoutPlanController@delete");
    router.Get("/workout-plans/view", "WorkoutPlanController@show");
    RegisterStep(r0, rs, 7, "GET", "/workout-plans/view", "WorkoutPlanController@show");
  }

  /** Lines 97-99: the routes of attendance. */
  function AttendanceRoutes(): seq<Route> {
    [ Route("GET", "/attendance", "AttendanceController@index"),
      Route("GET", "/attendance/create", "AttendanceController@create"),
      Route("POST", "/attendance/store", "AttendanceController@store") ]
  }

  /** Registers the routes of attendance. */
  method RegisterAttendanceRoutes(router: Router)
    modifies router
    ensures router.routes == Registered(old(router.routes), AttendanceRoutes())
  {
    ghost var r0 := router.routes;
    ghost var rs := AttendanceRoutes();
    router.Get("/attendance", "AttendanceController@index");
    RegisterStep(r0, rs, 0, "GET", "/attendance", "AttendanceController@index");
    router.Get("/attendance/create", "AttendanceController@create");
    RegisterStep(r0, rs, 1, "GET", "/attendance/create", "AttendanceController@create");
    router.Post("/attendance/store", "AttendanceController@store");
    RegisterStep(r0, rs, 2, "POST", "/attendance/store", "AttendanceController@store");
  }

  /** Lines 102-104: the routes of the AJAX endpoints. */
  function AjaxRoutes(): seq<Route> {
    [ Route("GET", "/api/membership/validate", "MembershipController@validateAjax"),
      Route("GET", "/api/members/search", "MemberController@searchAjax"),
      Route("GET", "/api/trainers/search", "TrainerController@searchAjax") ]
  }

  /** Registers the routes of the AJAX endpoints. */
  method RegisterAjaxRoutes(router: Router)
    modifies router
    ensures router.routes == Registered(old(router.routes), AjaxRoutes())
  {
    ghost var r0 := router.routes;
    ghost var rs := AjaxRoutes();
    router.Get("/api/membership/validate", "MembershipController@validateAjax");
    RegisterStep(r0, rs, 0, "GET", "/api/membership/validate", "MembershipController@validateAjax");
    router.Get("/api/members/search", "MemberController@searchAjax");
    RegisterStep(r0, rs, 1, "GET", "/api/members/search", "MemberController@searchAjax");
    router.Get("/api/trainers/search", "TrainerController@searchAjax");
    RegisterStep(r0, rs, 2, "GET", "/api/trainers/search", "TrainerController@searchAjax");
  }

  /** Line 107: the routes of the route listing. */
  function TestRoutes(): seq<Route> {
    [ Route("GET", "/test/routes", "TestController@routes") ]
  }

  /** Registers the routes of the route listing. */
  method RegisterTestRoutes(router: Router)
    modifies router
    ensures router.routes == Registered(old(router.routes), TestRoutes())
  {
    ghost var r0 := router.routes;
    ghost var rs := TestRoutes();
    router.Get("/test/routes", "TestController@routes");
    RegisterStep(r0, rs, 0, "GET", "/test/routes", "TestController@routes");
  }

  /** Lines 57-107: every route that needs a login, in order. */
  function ProtectedRoutes(): seq<Route> {
    DashboardRoutes() + MemberRoutes() + TrainerRoutes() + MembershipRoutes() + WorkoutPlanRoutes() + AttendanceRoutes() + AjaxRoutes() + TestRoutes()
  }

  /** Registers every route that needs a login, group by group. */
  method RegisterProtectedRoutes(router: Router)
    modifies router
    ensures router.routes == Registered(old(router.routes), ProtectedRoutes())
  {
    ghost var r0 := router.routes;
    RegisterDashboardRoutes(router);
    RegisterMemberRoutes(router);
    RegisteredConcat(r0, DashboardRoutes(), MemberRoutes());
    RegisterTrainerRoutes(router);
    RegisteredConcat(r0, DashboardRoutes() + MemberRoutes(), TrainerRoutes());
    RegisterMembershipRoutes(router);
    RegisteredConcat(r0, DashboardRoutes() + MemberRoutes() + TrainerRoutes(), MembershipRoutes());
    RegisterWorkoutPlanRoutes(router);
    RegisteredConcat(r0, DashboardRoutes() + MemberRoutes() + TrainerRoutes() + MembershipRoutes(), WorkoutPlanRoutes());
    RegisterAttendanceRoutes(router);
    RegisteredConcat(r0, DashboardRoutes() + MemberRoutes() + TrainerRoutes() + MembershipRoutes() + WorkoutPlanRoutes(), AttendanceRoutes());
    RegisterAjaxRoutes(router);
    RegisteredConcat(r0, DashboardRoutes() + MemberRoutes() + TrainerRoutes() + MembershipRoutes() + WorkoutPlanRoutes() + AttendanceRoutes(), AjaxRoutes());
    RegisterTestRoutes(router);
    RegisteredConcat(r0, DashboardRoutes() + MemberRoutes() + TrainerRoutes() + MembershipRoutes() + WorkoutPlanRoutes() + AttendanceRoutes() + AjaxRoutes(), TestRoutes());
  }

  /** The whole table once every route is registered. */
  function AppTable(): map<string, map<string, string>> {
    Registered(map[], AuthRoutes() + ProtectedRoutes())
  }

  /** Line 25: the paths that may be visited without logging in. */
  function PublicRoutes(): seq<string> {
    ["/login", "/logout"]
  }

  /** A path is public when it begins with one of the public routes. */
  predicate IsPublicPath(path: string) {
    exists i :: 0 <= i < |PublicRoutes()| && IsPrefix(PublicRoutes()[i], path)
  }

  /** Lines 43-49: the first public route the path begins with makes the
      request public, and the search stops there. */
  method IsPublic(uri: string, publicRoutes: seq<string>) returns (isPublic: bool)
    ensures isPublic <==> exists i :: 0 <= i < |publicRoutes| && IsPrefix(publicRoutes[i], uri)
  {
    isPublic := false;
    var i := 0;
    while i < |publicRoutes|
      invariant 0 <= i <= |publicRoutes|
      invariant !isPublic
      invariant forall j :: 0 <= j < i ==> !IsPrefix(publicRoutes[j], uri)
    {
      if IsPrefix(publicRoutes[i], uri) {
        isPublic := true;
        break;
      }
      i := i + 1;
    }
  }

  /** Lines 28-40: the path the login check looks at, with the base path
      removed and `''` read as `/`. */
  function GatePath(requestUri: string, basePath: string): string {
    var path := StripBase(UrlPath(requestUri), basePath);
    if path == "" || path == "/" then "/" else path
  }

  /** The login check and the router look at the same path. */
  lemma GateAndRouterAgree(requestUri: string, basePath: string)
    ensures GatePath(requestUri, basePath) == RoutePath(requestUri, basePath)
  {
    QueryRemovalNeverApplies(requestUri, basePath);
  }

  /** A path is public iff it begins with `/login` or `/logout`: the login
      and logout pages are public, and so is any path that merely begins
      with `/login`, such as `/login-help`. */
  lemma PublicPaths(p: string)
    ensures IsPublicPath(p) <==> IsPrefix("/login", p) || IsPrefix("/logout", p)
    ensures IsPublicPath("/login") && IsPublicPath("/logout") && IsPublicPath("/login-help")
  {
    assert IsPrefix(PublicRoutes()[0], "/login");
    assert IsPrefix(PublicRoutes()[1], "/logout");
    assert IsPrefix(PublicRoutes()[0], "/login-help");
  }

  lemma NotPublic(p: string)
    requires |p| < 2 || p[1] != 'l'
    ensures !IsPublicPath(p)
  {
    forall i | 0 <= i < |PublicRoutes()| ensures !IsPrefix(PublicRoutes()[i], p) {
      var r := PublicRoutes()[i];
      if |r| <= |p| {
        assert p[..|r|][1] == p[1] && r[1] == 'l';
      }
    }
  }

  /** Every route registered after the login check, the dashboard at `/`
      included, needs a login. */
  lemma ProtectedRoutesNeedLogin()
    ensures forall i :: 0 <= i < |ProtectedRoutes()| ==> !IsPublicPath(ProtectedRoutes()[i].path)
  {
    var a := DashboardRoutes() + MemberRoutes();
    var b := a + TrainerRoutes();
    var c := b + MembershipRoutes();
    var d := c + WorkoutPlanRoutes();
    var e := d + AttendanceRoutes();
    var f := e + AjaxRoutes();
    DashboardNeedsLogin();
    MemberNeedsLogin();
    TrainerNeedsLogin();
    MembershipNeedsLogin();
    WorkoutPlanNeedsLogin();
    AttendanceNeedsLogin();
    AjaxNeedsLogin();
    TestNeedsLogin();
    NeedLoginConcat(DashboardRoutes(), MemberRoutes());
    NeedLoginConcat(a, TrainerRoutes());
    NeedLoginConcat(b, MembershipRoutes());
    NeedLoginConcat(c, WorkoutPlanRoutes());
    NeedLoginConcat(d, AttendanceRoutes());
    NeedLoginConcat(e, AjaxRoutes());
    NeedLoginConcat(f, TestRoutes());
    assert ProtectedRoutes() == f + TestRoutes();
  }

  lemma DashboardNeedsLogin()
    ensures NeedLogin(DashboardRoutes())
  {
    GroupNeedsLogin(DashboardRoutes());
  }

  lemma MemberNeedsLogin()
    ensures NeedLogin(MemberRoutes())
  {
    GroupNeedsLogin(MemberRoutes());
  }

  lemma TrainerNeedsLogin()
    ensures NeedLogin(TrainerRoutes())
  {
    GroupNeedsLogin(TrainerRoutes());
  }

  lemma MembershipNeedsLogin()
    ensures NeedLogin(MembershipRoutes())
  {
    GroupNeedsLogin(MembershipRoutes());
  }

  lemma WorkoutPlanNeedsLogin()
    ensures NeedLogin(WorkoutPlanRoutes())
  {
    GroupNeedsLogin(WorkoutPlanRoutes());
  }

  lemma AttendanceNeedsLogin()
    ensures NeedLogin(AttendanceRoutes())
  {
    GroupNeedsLogin(AttendanceRoutes());
  }

  lemma AjaxNeedsLogin()
    ensures NeedLogin(AjaxRoutes())
  {
    GroupNeedsLogin(AjaxRoutes());
  }

  lemma TestNeedsLogin()
    ensures NeedLogin(TestRoutes())
  {
    GroupNeedsLogin(TestRoutes());
  }

  /** No route of `rs` is public. */
  predicate NeedLogin(rs: seq<Route>) {
    forall i :: 0 <= i < |rs| ==> !IsPublicPath(rs[i].path)
  }

  /** Routes whose paths do not start `/l` all need a login. */
  lemma GroupNeedsLogin(rs: seq<Route>)
    requires forall i :: 0 <= i < |rs| ==> |rs[i].path| < 2 || rs[i].path[1] != 'l'
    ensures NeedLogin(rs)
  {
    forall i | 0 <= i < |rs| ensures !IsPublicPath(rs[i].path) {
      NotPublic(rs[i].path);
    }
  }

  lemma NeedLoginConcat(a: seq<Route>, b: seq<Route>)
    requires NeedLogin(a) && NeedLogin(b)
    ensures NeedLogin(a + b)
  {
    forall i | 0 <= i < |a + b| ensures !IsPublicPath((a + b)[i].path) {
      if i < |a| { assert (a + b)[i] == a[i]; } else { assert (a + b)[i] == b[i - |a|]; }
    }
  }

  lemma {:induction false} LastActionConcat(a: seq<Route>, b: seq<Route>, verb: string, path: string)
    ensures LastAction(a + b, verb, path) ==
      if LastAction(b, verb, path).Some? then LastAction(b, verb, path) else LastAction(a, verb, path)
    decreases |b|
  {
    if b == [] {
      assert a + b == a;
    } else {
      assert (a + b)[..|a + b| - 1] == a + b[..|b| - 1];
      LastActionConcat(a, b[..|b| - 1], verb, path);
    }
  }

  lemma {:induction false} LastActionAbsent(rs: seq<Route>, verb: string, path: string)
    requires forall i :: 0 <= i < |rs| ==> rs[i].path != path
    ensures LastAction(rs, verb, path).None?
  {
    if rs != [] {
      LastActionAbsent(rs[..|rs| - 1], verb, path);
    }
  }

  lemma AuthRoutesLast()
    ensures LastAction(AuthRoutes(), "GET", "/login") == Some("AuthController@showLogin")
    ensures LastAction(AuthRoutes(), "POST", "/login") == Some("AuthController@login")
    ensures LastAction(AuthRoutes(), "GET", "/logout") == Some("AuthController@logout")
  {
    var auth := AuthRoutes();
    var two := auth[..|auth| - 1];
    var one := two[..|two| - 1];
    assert one[..|one| - 1] == [];
    assert two == [auth[0], auth[1]] && one == [auth[0]];
  }

  lemma ProtectedLeavesAuth(verb: string, path: string)
    requires path == "/login" || path == "/logout"
    ensures LastAction(AuthRoutes() + ProtectedRoutes(), verb, path) == LastAction(AuthRoutes(), verb, path)
  {
    var rest := ProtectedRoutes();
    ProtectedRoutesNeedLogin();
    PublicPaths(path);
    assert forall i :: 0 <= i < |rest| ==> rest[i].path != path;
    LastActionAbsent(rest, verb, path);
    LastActionConcat(AuthRoutes(), rest, verb, path);
  }

  /** The routes registered after the login check do not replace the
      login and logout routes registered before it. */
  lemma AuthRoutesRegistered()
    ensures "/login" in Table(AppTable(), "GET") && Table(AppTable(), "GET")["/login"] == "AuthController@showLogin"
    ensures "/login" in Table(AppTable(), "POST") && Table(AppTable(), "POST")["/login"] == "AuthController@login"
    ensures "/logout" in Table(AppTable(), "GET") && Table(AppTable(), "GET")["/logout"] == "AuthController@logout"
  {
    AuthRoutesLast();
    ProtectedLeavesAuth("GET", "/login");
    ProtectedLeavesAuth("POST", "/login");
    ProtectedLeavesAuth("GET", "/logout");
    RegisteredLookup(map[], AuthRoutes() + ProtectedRoutes(), "GET", "/login");
    RegisteredLookup(map[], AuthRoutes() + ProtectedRoutes(), "POST", "/login");
    RegisteredLookup(map[], AuthRoutes() + ProtectedRoutes(), "GET", "/logout");
  }

  /** What the front controller answers: a redirect to the login page, or
      whatever the router makes of the request. */
  datatype Response = RedirectTo(location: string) | Dispatched(outcome: Outcome)

  /** One request, from the start of the session to the dispatch.
      `appBasePath` is the `APP_BASE_PATH` setting, `scriptDir` the directory
      of the script, `bytes` the randomness a new CSRF token is made of and
      `classes` the controller classes with their methods. */
  method HandleRequest(session: Session, bytes: seq<Byte>, requestUri: string, verb: string,
                       appBasePath: Option<string>, scriptDir: string, classes: map<string, set<string>>)
    returns (response: Response)
    requires |bytes| == 32
    modifies session
    ensures session.started
    ensures ValueEmpty(old(session.Get("csrf_token"))) ==> session.data == old(session.data)["csrf_token" := Str(Bin2Hex(bytes))]
    ensures !ValueEmpty(old(session.Get("csrf_token"))) ==> session.data == old(session.data)
    ensures var basePath := PathHelpers.GetBasePath(appBasePath, scriptDir);
      && (response.RedirectTo? <==> !IsPublicPath(GatePath(requestUri, basePath)) && !old(session.Check()))
      && (response.RedirectTo? ==> response.location == basePath + "/login")
      && (response.Dispatched? ==>
            response.outcome == Resolve(AppTable(), verb, RoutePath(requestUri, basePath), classes))
  {
    session.StartSession(bytes);
    assert session.Check() == old(session.Check());
    var router := new Router();
    RegisterAuthRoutes(router);
    var basePath := PathHelpers.GetBasePath(appBasePath, scriptDir);
    var uri := RequestGatePath(requestUri, basePath);
    var isPublic := IsPublic(uri, PublicRoutes());
    if !isPublic && !session.Check() {
      return RedirectTo(basePath + "/login");
    }
    var outcome := DispatchProtected(router, requestUri, verb, basePath, classes);
    response := Dispatched(outcome);
  }

  /** Lines 28-40: the path the login check looks at, worked out step by
      step from the request URI. */
  method RequestGatePath(requestUri: string, basePath: string) returns (uri: string)
    ensures uri == GatePath(requestUri, basePath)
  {
    uri := UrlPath(requestUri);
    if !IsEmpty(basePath) && IsPrefix(basePath, uri) {
      uri := uri[|basePath|..];
    }
    if uri == "" || uri == "/" {
      uri := "/";
    }
  }

  /** Lines 49-end: once the login check has let the request through, the
      protected routes are registered and the request is dispatched. */
  method DispatchProtected(router: Router, requestUri: string, verb: string, basePath: string,
                           classes: map<string, set<string>>)
    returns (outcome: Outcome)
    requires router.routes == Registered(map[], AuthRoutes())
    modifies router
    ensures outcome == Resolve(AppTable(), verb, RoutePath(requestUri, basePath), classes)
  {
    RegisterProtectedRoutes(router);
    RegisteredConcat(map[], AuthRoutes(), ProtectedRoutes());
    outcome := router.Dispatch(requestUri, verb, basePath, classes);
  }

  /** The login page a refused request is sent to is itself public, so a
      refused request is redirected once and not again. */
  lemma RedirectTargetIsPublic(basePath: string)
    requires '?' !in basePath && '#' !in basePath && basePath != "0"
    ensures IsPublicPath(GatePath(basePath + "/login", basePath))
  {
    var uri := basePath + "/login";
    assert '?' !in uri && '#' !in uri by {
      forall i | 0 <= i < |uri| ensures uri[i] != '?' && uri[i] != '#' {
        if i < |basePath| { assert uri[i] == basePath[i]; } else { assert uri[i] == "/login"[i - |basePath|]; }
      }
    }
    NoSeparator(uri, '?');
    NoSeparator(uri, '#');
    assert UrlPath(uri) == uri;
    assert uri[..|basePath|] == basePath;
    assert uri[|basePath|..] == "/login";
    PublicPaths("/login");
  }
}
