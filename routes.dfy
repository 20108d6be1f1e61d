/**
 * Route registration: the `@get`/`@post` decorators, the tag check of
 * `add_route`, and the module-name split and attribute filter of `add_routes`
 * (www/coroweb.py, lines 9-33 and 165-203).
 */
module Routes {
  import opened Wrappers
  import opened Signature
  import opened Web
  import opened Handler

  /** `@get(path)`: the wrapper keeps the signature and behaviour and carries the tags. */
  function Get(path: string, fn: Func): Func
  {
    fn.(methodTag := Some("GET"), routeTag := Some(path))
  }

  /** `@post(path)`. */
  function Post(path: string, fn: Func): Func
  {
    fn.(methodTag := Some("POST"), routeTag := Some(path))
  }

  /**
   * Why registering a function fails: it lacks `__method__` or `__route__`
   * (line 169), or its signature is rejected while the handler is built (line 82).
   */
  datatype RouteError = NotTagged | SignatureRejected

  /** What `app.router.add_route` receives. */
  datatype Route = Route(httpMethod: string, path: string, handler: RequestHandler)

  /** `add_route` (lines 165-175), up to handing the route to the router. */
  method AddRoute(fn: Func) returns (r: Result<Route, RouteError>)
    ensures r.Failure? <==> fn.methodTag.None? || fn.routeTag.None? || RequestMisplaced(fn.params)
    ensures r.Failure? ==> (r.error == NotTagged <==> fn.methodTag.None? || fn.routeTag.None?)
    ensures r.Success? ==>
      && r.value.httpMethod == fn.methodTag.value
      && r.value.path == fn.routeTag.value
      && r.value.handler.func == fn
      && Classify(fn.params).Success?
      && r.value.handler.Cached() == Classify(fn.params).value
  {
    HasRequestArgSpec(fn.params);
    if fn.routeTag.None? || fn.methodTag.None? {
      return Failure(NotTagged);
    }
    if HasRequestArg(fn.params).Failure? {
      return Failure(SignatureRejected);
    }
    var handler := new RequestHandler(fn);
    return Success(Route(fn.methodTag.value, fn.routeTag.value, handler));
  }

  /**
   * A decorated function carries both tags, those of the outermost decorator, and keeps the
   * wrapped function's signature and behaviour. With both tags present, `AddRoute`'s first
   * two ensures leave a misplaced `request` parameter as the only way registration can fail.
   */
  lemma DecoratedFunctionRegisters(path: string, outer: string, fn: Func)
    ensures Get(path, fn).methodTag == Some("GET") && Get(path, fn).routeTag == Some(path)
    ensures Post(path, fn).methodTag == Some("POST") && Post(path, fn).routeTag == Some(path)
    ensures Get(path, fn).params == fn.params && Post(path, fn).params == fn.params
    ensures Get(path, fn).call == fn.call && Post(path, fn).call == fn.call
    ensures Post(outer, Get(path, fn)) == Post(outer, fn) && Get(outer, Post(path, fn)) == Get(outer, fn)
  {
  }

  // ---------------------------------------------------------------------
  // add_routes
  // ---------------------------------------------------------------------

  /** `str.rfind(c)`: the last index of `c` in `s`, or -1. */
  function RFind(s: string, c: char): (r: int)
    ensures -1 <= r < |s|
    ensures r == -1 <==> forall j :: 0 <= j < |s| ==> s[j] != c
    ensures r >= 0 ==> s[r] == c && forall j :: r < j < |s| ==> s[j] != c
  {
    if s == [] then -1
    else if s[|s| - 1] == c then |s| - 1
    else
      var r := RFind(s[..|s| - 1], c);
      assert forall j :: 0 <= j < |s| - 1 ==> s[..|s| - 1][j] == s[j];
      r
  }

  /** What line 183 or line 190 imports: a top-level module, or `name` taken from `package`. */
  datatype ModuleRef = TopLevel(moduleName: string) | Submodule(package: string, name: string)

  /** Lines 179-190: the module name split at its last dot. */
  function SplitModuleName(moduleName: string): (m: ModuleRef)
    ensures m.TopLevel? <==> '.' !in moduleName
    ensures m.TopLevel? ==> m.moduleName == moduleName
    ensures m.Submodule? ==> m.package + "." + m.name == moduleName && '.' !in m.name
  {
    var n := RFind(moduleName, '.');
    if n == -1 then TopLevel(moduleName)
    else
      assert moduleName == moduleName[..n] + "." + moduleName[n + 1..];
      ghost var name := moduleName[n + 1..];
      assert forall j :: 0 <= j < |name| ==> name[j] == moduleName[n + 1 + j];
      Submodule(moduleName[..n], moduleName[n + 1..])
  }

  /** Splitting `package.name` gives back `package` and `name` whenever `name` has no dot. */
  lemma SplitJoin(package: string, name: string)
    requires '.' !in name
    ensures SplitModuleName(package + "." + name) == Submodule(package, name)
  {
    var s := package + "." + name;
    var n := RFind(s, '.');
    assert s[|package|] == '.';
    assert forall j :: |package| < j < |s| ==> s[j] == name[j - |package| - 1];
    assert n == |package|;
    assert s[..n] == package;
    assert s[n + 1..] == name;
  }

  /** A module attribute as `dir` and `getattr` give it: a callable function, or something else. */
  datatype AttrValue = Callable(fn: Func) | NotCallable
  datatype Attribute = Attribute(name: string, value: AttrValue)

  /** Python truthiness of an optional string attribute. */
  predicate Truthy(tag: Option<string>)
  {
    tag.Some? && tag.value != ""
  }

  /** Lines 193-202: the attribute is public, callable, and carries a truthy method and path. */
  predicate IsRouteCandidate(a: Attribute)
  {
    !StartsWith(a.name, "_") && a.value.Callable? &&
    Truthy(a.value.fn.methodTag) && Truthy(a.value.fn.routeTag)
  }

  /** The functions `add_routes` hands to `add_route`, in attribute order. */
  function Candidates(attrs: seq<Attribute>): (r: seq<Func>)
    ensures |r| <= |attrs|
    ensures forall i :: 0 <= i < |r| ==> Truthy(r[i].methodTag) && Truthy(r[i].routeTag)
  {
    if attrs == [] then []
    else
      var last := attrs[|attrs| - 1];
      Candidates(attrs[..|attrs| - 1]) + if IsRouteCandidate(last) then [last.value.fn] else []
  }

  /** The candidates of a prefix of the attributes are a prefix of all candidates. */
  lemma {:induction false} CandidatesPrefix(attrs: seq<Attribute>, i: nat)
    requires i <= |attrs|
    ensures Candidates(attrs[..i]) <= Candidates(attrs)
    decreases |attrs| - i
  {
    if i < |attrs| {
      CandidatesPrefix(attrs, i + 1);
      assert attrs[..i + 1][..i] == attrs[..i];
    } else {
      assert attrs[..i] == attrs;
    }
  }

  /** The candidates of two attribute lists in a row are their candidates in a row: attribute order is kept. */
  lemma {:induction false} CandidatesAppend(a: seq<Attribute>, b: seq<Attribute>)
    ensures Candidates(a + b) == Candidates(a) + Candidates(b)
    decreases |b|
  {
    if b == [] {
      assert a + b == a;
    } else {
      var front := b[..|b| - 1];
      assert (a + b)[..|a + b| - 1] == a + front;
      assert (a + b)[|a + b| - 1] == b[|b| - 1];
      CandidatesAppend(a, front);
    }
  }

  /** A single attribute is handed on exactly when it passes the filter of lines 193-202. */
  lemma CandidatesSingle(a: Attribute)
    ensures Candidates([a]) == if IsRouteCandidate(a) then [a.value.fn] else []
  {
    assert [a][..0] == [];
  }

  /**
   * Every public, callable attribute with a truthy method and path is handed on, and
   * everything handed on is such an attribute's function.
   */
  lemma {:induction false} CandidatesExactly(attrs: seq<Attribute>)
    ensures forall i :: 0 <= i < |attrs| && IsRouteCandidate(attrs[i]) ==> attrs[i].value.fn in Candidates(attrs)
    ensures forall f :: f in Candidates(attrs) ==>
      exists i :: 0 <= i < |attrs| && IsRouteCandidate(attrs[i]) && attrs[i].value.fn == f
  {
    if attrs != [] {
      var front := attrs[..|attrs| - 1];
      var last := attrs[|attrs| - 1];
      var tail := if IsRouteCandidate(last) then [last.value.fn] else [];
      CandidatesExactly(front);
      assert Candidates(attrs) == Candidates(front) + tail;
      assert forall i :: 0 <= i < |front| ==> front[i] == attrs[i];
      forall f | f in Candidates(attrs)
        ensures exists i :: 0 <= i < |attrs| && IsRouteCandidate(attrs[i]) && attrs[i].value.fn == f
      {
        if f in Candidates(front) {
          var i :| 0 <= i < |front| && IsRouteCandidate(front[i]) && front[i].value.fn == f;
          assert attrs[i] == front[i];
        } else {
          assert f in tail;
          assert IsRouteCandidate(attrs[|attrs| - 1]);
        }
      }
    }
  }

  /** One more attribute adds at most its own function to the candidates. */
  lemma CandidatesStep(attrs: seq<Attribute>, i: nat)
    requires i < |attrs|
    ensures Candidates(attrs[..i + 1]) ==
      Candidates(attrs[..i]) + if IsRouteCandidate(attrs[i]) then [attrs[i].value.fn] else []
  {
    assert attrs[..i + 1][..i] == attrs[..i];
  }

  /** A function decorated with a non-empty path under a public name is registered by `add_routes`; with an empty path it is skipped. */
  lemma DecoratedCandidate(name: string, path: string, fn: Func)
    ensures IsRouteCandidate(Attribute(name, Callable(Get(path, fn)))) <==> !StartsWith(name, "_") && path != ""
    ensures IsRouteCandidate(Attribute(name, Callable(Post(path, fn)))) <==> !StartsWith(name, "_") && path != ""
  {
  }

  /** `route` is what `add_route` registers for `fn`. */
  ghost predicate RegisteredFor(route: Route, fn: Func)
  {
    && route.handler.func == fn
    && fn.methodTag.Some? && route.httpMethod == fn.methodTag.value
    && fn.routeTag.Some? && route.path == fn.routeTag.value
    && !RequestMisplaced(fn.params)
    && Classify(fn.params).Success?
    && route.handler.Cached() == Classify(fn.params).value
  }

  /**
   * Lines 191-203: register every candidate in order; the first one whose signature
   * is rejected stops the scan, and the routes registered before it remain.
   */
  method AddRoutes(attrs: seq<Attribute>) returns (routes: seq<Route>, err: Option<RouteError>)
    ensures |routes| <= |Candidates(attrs)|
    ensures forall i :: 0 <= i < |routes| ==> RegisteredFor(routes[i], Candidates(attrs)[i])
    ensures err.None? ==> |routes| == |Candidates(attrs)|
    ensures err.Some? ==>
      err == Some(SignatureRejected) && |routes| < |Candidates(attrs)| &&
      RequestMisplaced(Candidates(attrs)[|routes|].params)
  {
    routes, err := [], None;
    ghost var cands := Candidates(attrs);
    for i := 0 to |attrs|
      invariant Candidates(attrs[..i]) <= cands
      invariant |routes| == |Candidates(attrs[..i])|
      invariant forall j :: 0 <= j < |routes| ==> RegisteredFor(routes[j], cands[j])
    {
      CandidatesStep(attrs, i);
      CandidatesPrefix(attrs, i + 1);
      var a := attrs[i];
      if StartsWith(a.name, "_") {
        continue;
      }
      if a.value.Callable? {
        var fn := a.value.fn;
        if Truthy(fn.methodTag) && Truthy(fn.routeTag) {
          assert cands[|routes|] == fn;
          var r := AddRoute(fn);
          if r.Failure? {
            return routes, Some(r.error);
          }
          routes := routes + [r.value];
        }
      }
    }
    assert attrs[..|attrs|] == attrs;
  }
}
