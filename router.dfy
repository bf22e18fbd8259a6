/** The router (`app/Core/Router.php`): a table from request verb and exact
    path to a `Controller@method` action, and the dispatch that normalises
    the request path, looks the action up and calls it, or answers 404 or 500. */
module Routing {
  import opened Options
  import opened Strings

  /** `parse_url($uri, PHP_URL_PATH)` for a request target such as
      `/members?page=2#top`: the part before the query and the fragment. */
  function UrlPath(uri: string): (p: string)
    ensures IsPrefix(p, uri)
    ensures '?' !in p && '#' !in p
    ensures |p| < |uri| ==> uri[|p|] == '?' || uri[|p|] == '#'
  {
    var beforeQuery := BeforeFirst(uri, '?');
    var path := BeforeFirst(beforeQuery, '#');
    assert uri[..|path|] == beforeQuery[..|path|];
    assert |path| < |beforeQuery| ==> uri[|path|] == beforeQuery[|path|];
    path
  }

  /** A target made of a path, then a query or a fragment, gives back
      exactly that path. */
  lemma UrlPathOfTarget(path: string, mark: char, rest: string)
    requires '?' !in path && '#' !in path && (mark == '?' || mark == '#')
    ensures UrlPath(path + [mark] + rest) == path
  {
    var uri := path + [mark] + rest;
    var p := UrlPath(uri);
    assert forall i :: 0 <= i < |path| ==> uri[i] == path[i];
    assert uri[|path|] == mark;
  }

  /** `substr($path, strlen($basePath))` when the base path is non-empty and
      a textual prefix of the path; the path unchanged otherwise. */
  function StripBase(path: string, basePath: string): (r: string)
    ensures !IsEmpty(basePath) && IsPrefix(basePath, path) ==> path == basePath + r
    ensures IsEmpty(basePath) || !IsPrefix(basePath, path) ==> r == path
  {
    if !IsEmpty(basePath) && IsPrefix(basePath, path) then
      assert path == path[..|basePath|] + path[|basePath|..];
      path[|basePath|..]
    else path
  }

  /** The path `dispatch` looks up: the base path stripped, `''` read as
      `/`, and anything from a `?` on removed. */
  function RoutePath(uri: string, basePath: string): (p: string)
    ensures p != "" && '?' !in p
  {
    var path := StripBase(UrlPath(uri), basePath);
    var path' := if path == "" then "/" else path;
    if '?' in path' then BeforeFirst(path', '?') else path'
  }

  /** `parse_url` has already removed the query, so the explicit removal of
      a `?` in `dispatch` never changes the path. */
  lemma QueryRemovalNeverApplies(uri: string, basePath: string)
    ensures var path := StripBase(UrlPath(uri), basePath);
      RoutePath(uri, basePath) == (if path == "" then "/" else path)
  {
    var full := UrlPath(uri);
    var path := StripBase(full, basePath);
    if !IsEmpty(basePath) && IsPrefix(basePath, full) {
      assert forall i :: 0 <= i < |path| ==> path[i] == full[|basePath| + i];
    }
  }

  /** The controller part of an action: the text before the first `@`. */
  function ActionController(action: string): string {
    BeforeFirst(action, '@')
  }

  /** The method part of an action: the text between the first and the
      second `@`; an action without `@` has none, which PHP passes on as
      `null` and `method_exists` reads as `''`. */
  function ActionMethod(action: string): (m: string)
    ensures '@' !in m
    ensures '@' !in action ==> m == ""
  {
    var head := BeforeFirst(action, '@');
    if |head| < |action| then BeforeFirst(action[|head| + 1..], '@') else ""
  }

  /** A registered action is split back into the two names it was written from. */
  lemma ActionSplits(controller: string, name: string)
    requires '@' !in controller && '@' !in name
    ensures ActionController(controller + "@" + name) == controller
    ensures ActionMethod(controller + "@" + name) == name
  {
    var action := controller + "@" + name;
    assert action == controller + ("@" + name);
    BeforeFirstOf(controller, "@" + name);
    assert action[|controller| + 1..] == name;
    BeforeFirstOf(name, "");
    assert name + "" == name;
  }

  lemma {:induction false} BeforeFirstOf(a: string, rest: string)
    requires '@' !in a && (rest == "" || rest[0] == '@')
    ensures BeforeFirst(a + rest, '@') == a
  {
    if |a| > 0 {
      assert (a + rest)[1..] == a[1..] + rest;
      BeforeFirstOf(a[1..], rest);
    } else {
      assert a + rest == rest;
    }
  }

  /** `"App\\Controllers\\$controller"`. */
  function ControllerClass(name: string): string {
    "App\\Controllers\\" + name
  }

  /** What a request comes to: a 404 page, a 500 page, or a call of a
      controller method. */
  datatype Outcome =
    | NotFound(path: string)
    | ServerError(message: string)
    | Call(controller: string, action: string)

  /** The routes of one request verb; a verb with no routes has none. */
  function Table(routes: map<string, map<string, string>>, verb: string): map<string, string> {
    if verb in routes then routes[verb] else map[]
  }

  /** `$routes[$verb][$path] = $action`. */
  function Register(routes: map<string, map<string, string>>, verb: string, path: string, action: string): map<string, map<string, string>> {
    routes[verb := Table(routes, verb)[path := action]]
  }

  /** A registration makes its path route to its action under its verb. */
  lemma RegisterSets(routes: map<string, map<string, string>>, verb: string, path: string, action: string)
    ensures path in Table(Register(routes, verb, path, action), verb)
    ensures Table(Register(routes, verb, path, action), verb)[path] == action
  {
  }

  /** A registration changes the action of no other verb and path. */
  lemma RegisterLeavesOthers(routes: map<string, map<string, string>>, verb: string, path: string, action: string, verb': string, path': string)
    requires verb' != verb || path' != path
    ensures path' in Table(Register(routes, verb, path, action), verb') <==> path' in Table(routes, verb')
    ensures path' in Table(routes, verb') ==> Table(Register(routes, verb, path, action), verb')[path'] == Table(routes, verb')[path']
  {
  }

  class Router {
    /** `$routes[$verb][$uri] = $action`. */
    var routes: map<string, map<string, string>>

    constructor()
      ensures routes == map[]
    {
      routes := map[];
    }

    /** `isset($this->routes[$verb][$path])`, and the action if so. */
    function Lookup(verb: string, path: string): (r: Option<string>)
      reads this
      ensures r.Some? <==> path in Table(routes, verb)
    {
      var table := Table(routes, verb);
      if path in table then Some(table[path]) else None
    }

    /** `get`: the action is stored under GET and this exact path; a second
        registration of the same path replaces the first (`RegisterSets`), and
        nothing else changes (`RegisterLeavesOthers`). */
    method Get(uri: string, action: string)
      modifies this
      ensures routes == Register(old(routes), "GET", uri, action)
    {
      routes := Register(routes, "GET", uri, action);
    }

    /** `post`: the same for POST. */
    method Post(uri: string, action: string)
      modifies this
      ensures routes == Register(old(routes), "POST", uri, action)
    {
      routes := Register(routes, "POST", uri, action);
    }

    /** `dispatch`. `basePath` is `$_SERVER['APP_BASE_PATH'] ?? ''`, and
        `classes` maps each controller class that exists to its method names. */
    method Dispatch(uri: string, verb: string, basePath: string, classes: map<string, set<string>>)
      returns (outcome: Outcome)
      ensures outcome == Resolve(routes, verb, RoutePath(uri, basePath), classes)
    {
      var path := UrlPath(uri);
      if !IsEmpty(basePath) && IsPrefix(basePath, path) {
        path := path[|basePath|..];
      }
      if path == "" {
        path := "/";
      }
      if '?' in path {
        path := BeforeFirst(path, '?');
      }
      var action := Lookup(verb, path);
      if action.None? {
        return NotFound(path);
      }
      var controller := ControllerClass(ActionController(action.value));
      var methodName := ActionMethod(action.value);
      if controller !in classes {
        return ServerError("Controller not found: " + controller);
      }
      if methodName !in classes[controller] {
        return ServerError("Method not found: " + methodName + " in controller " + controller);
      }
      outcome := Call(controller, methodName);
    }
  }

  /** Where a request for `path` with `verb` ends up. */
  function Resolve(routes: map<string, map<string, string>>, verb: string, path: string, classes: map<string, set<string>>): (r: Outcome)
    ensures r.NotFound? <==> path !in Table(routes, verb)
    ensures r.NotFound? ==> r.path == path
    ensures r.Call? ==>
      && path in Table(routes, verb)
      && r.controller == ControllerClass(ActionController(Table(routes, verb)[path]))
      && r.action == ActionMethod(Table(routes, verb)[path])
      && r.controller in classes && r.action in classes[r.controller]
    ensures r.ServerError? ==>
      && path in Table(routes, verb)
      && var c := ControllerClass(ActionController(Table(routes, verb)[path]));
         c !in classes || ActionMethod(Table(routes, verb)[path]) !in classes[c]
  {
    var table := Table(routes, verb);
    if path !in table then NotFound(path)
    else
      var controller := ControllerClass(ActionController(table[path]));
      var methodName := ActionMethod(table[path]);
      if controller !in classes then ServerError("Controller not found: " + controller)
      else if methodName !in classes[controller] then
        ServerError("Method not found: " + methodName + " in controller " + controller)
      else Call(controller, methodName)
  }

  /** The two request methods have separate tables: a path registered only
      for GET is not found for POST, and the other way round. */
  lemma MethodsSeparate(routes: map<string, map<string, string>>, path: string, action: string, classes: map<string, set<string>>)
    requires path !in Table(routes, "POST")
    ensures Resolve(Register(routes, "GET", path, action), "POST", path, classes) == NotFound(path)
  {
  }

  /** A route written `Name@method` for an existing class with that method
      is called, whatever the base path in front of it. */
  lemma DispatchCalls(routes: map<string, map<string, string>>, verb: string, basePath: string, path: string,
                      name: string, member: string, classes: map<string, set<string>>)
    requires '@' !in name && '@' !in member
    requires !IsEmpty(basePath) && path != "" && '?' !in path && '#' !in path && '?' !in basePath && '#' !in basePath
    requires path in Table(routes, verb) && Table(routes, verb)[path] == name + "@" + member
    requires ControllerClass(name) in classes && member in classes[ControllerClass(name)]
    ensures Resolve(routes, verb, RoutePath(basePath + path, basePath), classes) == Call(ControllerClass(name), member)
  {
    ActionSplits(name, member);
    var uri := basePath + path;
    assert '?' !in uri && '#' !in uri by {
      forall i | 0 <= i < |uri| ensures uri[i] != '?' && uri[i] != '#' {
        if i < |basePath| { assert uri[i] == basePath[i]; } else { assert uri[i] == path[i - |basePath|]; }
      }
    }
    NoSeparator(uri, '?');
    NoSeparator(uri, '#');
    assert UrlPath(uri) == uri;
    assert uri[..|basePath|] == basePath;
    assert uri[|basePath|..] == path;
  }

  lemma {:induction false} NoSeparator(s: string, sep: char)
    requires sep !in s
    ensures BeforeFirst(s, sep) == s
  {
    if |s| > 0 {
      NoSeparator(s[1..], sep);
      assert s == [s[0]] + s[1..];
    }
  }
}
