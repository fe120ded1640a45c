/**
 * core.go: the route table and request dispatch.  Registration appends
 * routes in call order; a request is served by scanning the table from a
 * cursor kept in its context, running the handler of the first route that
 * matches, and answering 404 when the table is exhausted with an empty body.
 */
module Core {
  import opened Wrappers
  import opened Strs
  import opened Pattern
  import opened Utils
  import opened Router
  import Namer
  import Paths
  import Context
  import Handler

  // ---------------------------------------------------------------------
  // Path normalisation

  /** A registered path: "" stands for "/", and a path is rooted at '/'. */
  function Rooted(path: string): (p: string)
    ensures |p| > 0 && p[0] == '/'
    ensures path != "" && path[0] == '/' ==> p == path
  {
    var q := if path == "" then "/" else path;
    if q[0] != '/' then "/" + q else q
  }

  /**
   * The form a path is compared in, for registered and requested paths
   * alike: lower case, without trailing '/' (unless it is the single
   * character of the path).
   */
  function Canonical(path: string): string
  {
    var l := ToLower(path);
    if |l| > 1 then TrimRight(l, '/') else l
  }

  /** Canonical paths have no upper case letter and end in '/' only when they are "/". */
  lemma CanonicalShape(path: string)
    ensures NoUpper(Canonical(path))
    ensures |Canonical(path)| <= |path|
    ensures Canonical(path) == "" || Canonical(path) == "/" || Canonical(path)[|Canonical(path)| - 1] != '/'
    ensures HasPrefix(ToLower(path), Canonical(path))
  {
    var l := ToLower(path);
    LowerHasNoUpper(path);
    if |l| > 1 {
      TrimRightPrefix(l, '/');
      var t := TrimRight(l, '/');
      assert forall i :: 0 <= i < |t| ==> t[i] == l[i];
    }
  }

  /** Normalising twice is normalising once. */
  lemma CanonicalIdempotent(path: string)
    ensures Canonical(Canonical(path)) == Canonical(path)
  {
    var c := Canonical(path);
    CanonicalShape(path);
    LowerIdempotentOn(c);
    if |c| > 1 {
      assert TrimRight(c, '/') == c;
    }
  }

  /** A string without upper case letters is its own lower case. */
  lemma LowerIdempotentOn(s: string)
    requires NoUpper(s)
    ensures ToLower(s) == s
  {
  }

  /** The path made only of '/' characters, two or more, collapses to the empty path. */
  lemma SlashesVanish(n: nat)
    requires n >= 2
    ensures Canonical(seq(n, _ => '/')) == ""
  {
    var s := seq(n, _ => '/');
    assert ToLower(s) == s;
    TrimRightRun("", s, '/');
    assert "" + s == s;
  }

  // ---------------------------------------------------------------------
  // Registration

  /** The route pushMethod registers for one handler: the shared fields, then that handler. */
  function RouteOf(verb: string, path: string, h: Action): Route
  {
    RouteTemplate(verb, path).(handler := h)
  }

  /**
   * The fields pushMethod computes once per call, before its loop appends
   * one route per handler; the handler field is a placeholder the loop sets.
   */
  function RouteTemplate(verb: string, path: string): Route
  {
    var original := Rooted(path);
    var p := Canonical(original);
    var params := ParamsSpec(original);
    var isMiddleware := verb == "USE";
    Route(
      isGet := verb == "GET",
      isMiddleware := isMiddleware,
      isStar := p == "*" || p == "/*" || (isMiddleware && p == "/"),
      isSlash := p == "/",
      isRegex := |params| > 0,
      verb := if isMiddleware || verb == "ALL" then "*" else verb,
      path := p,
      params := params,
      matcher := if |params| > 0 then Compile(p) else [],
      handler := Continue)
  }

  /** RouteTemplate's fields, given the rooted path, its canonical form and its parameters. */
  lemma TemplateOf(verb: string, path: string, original: string, p: string, params: seq<string>)
    requires original == Rooted(path) && p == Canonical(original) && params == ParamsSpec(original)
    ensures var isMiddleware := verb == "USE";
      RouteTemplate(verb, path) == Route(
        verb == "GET", isMiddleware, p == "*" || p == "/*" || (isMiddleware && p == "/"), p == "/", |params| > 0,
        if isMiddleware || verb == "ALL" then "*" else verb, p, params,
        if |params| > 0 then Compile(p) else [], Continue)
  {
  }

  /** The routes pushMethod registers: one per handler, in order. */
  function Register(verb: string, path: string, handlers: seq<Action>): (rs: seq<Route>)
    ensures |rs| == |handlers|
  {
    WithHandlers(RouteTemplate(verb, path), handlers)
  }

  /** The registered routes are copies of the route built for any one handler. */
  lemma RegisterFrom(verb: string, path: string, h: Action, handlers: seq<Action>)
    ensures Register(verb, path, handlers) == WithHandlers(RouteOf(verb, path, h), handlers)
  {
    WithHandlersRehandle(RouteTemplate(verb, path), h, handlers);
  }

  /** Copies of the route `t`, one per handler, each carrying its handler. */
  function WithHandlers(t: Route, handlers: seq<Action>): (rs: seq<Route>)
    ensures |rs| == |handlers|
    ensures forall j :: 0 <= j < |handlers| ==> rs[j] == t.(handler := handlers[j])
  {
    seq(|handlers|, j requires 0 <= j < |handlers| => t.(handler := handlers[j]))
  }

  lemma WithHandlersSnoc(t: Route, handlers: seq<Action>, i: nat)
    requires i < |handlers|
    ensures WithHandlers(t, handlers[..i + 1]) == WithHandlers(t, handlers[..i]) + [t.(handler := handlers[i])]
  {
    var a := WithHandlers(t, handlers[..i + 1]);
    var b := WithHandlers(t, handlers[..i]) + [t.(handler := handlers[i])];
    forall j | 0 <= j < |a|
      ensures a[j] == b[j]
    {
      assert handlers[..i + 1][j] == handlers[j];
      if j < i {
        assert handlers[..i][j] == handlers[j];
      }
    }
  }

  /** The placeholder handler of the copied route does not matter. */
  lemma WithHandlersRehandle(t: Route, h: Action, handlers: seq<Action>)
    ensures WithHandlers(t.(handler := h), handlers) == WithHandlers(t, handlers)
  {
  }

  lemma WithHandlersAppend(t: Route, a: seq<Action>, b: seq<Action>)
    ensures WithHandlers(t, a + b) == WithHandlers(t, a) + WithHandlers(t, b)
  {
    var l, r := WithHandlers(t, a + b), WithHandlers(t, a) + WithHandlers(t, b);
    forall j | 0 <= j < |l|
      ensures l[j] == r[j]
    {
      if j < |a| {
        assert (a + b)[j] == a[j];
      } else {
        assert (a + b)[j] == b[j - |a|];
      }
    }
  }

  /**
   * What registration promises about each route: the flags follow the
   * method, the path is normalised, parameters are taken from the path as
   * written (their case kept) and a route is a pattern exactly when it has
   * parameters.
   */
  lemma RegisterShape(verb: string, path: string, handlers: seq<Action>, j: nat)
    requires j < |handlers|
    ensures var r := Register(verb, path, handlers)[j];
      && r.handler == handlers[j]
      && r.path == Canonical(Rooted(path))
      && (r.isMiddleware <==> verb == "USE")
      && (r.isGet <==> verb == "GET")
      && (r.verb == "*" <==> verb in {"USE", "ALL", "*"})
      && (r.verb != "*" ==> r.verb == verb)
      && (r.isStar <==> r.path == "/*" || (verb == "USE" && r.path == "/"))
      && (r.isSlash <==> r.path == "/")
      && r.params == ParamsSpec(Rooted(path))
      && (r.isRegex <==> |ParamsSpec(Rooted(path))| > 0)
      && (r.isRegex ==> r.matcher == Compile(r.path))
  {
    var r := Register(verb, path, handlers)[j];
    assert r.path != "*" by {
      var l := ToLower(Rooted(path));
      assert l[0] == '/';
      CanonicalShape(Rooted(path));
    }
  }

  /** Routes of one registration differ only in their handler; none has an empty method. */
  lemma RouteOfHandler(verb: string, path: string, h: Action, h': Action)
    requires verb != ""
    ensures RouteOf(verb, path, h') == RouteOf(verb, path, h).(handler := h')
    ensures RouteOf(verb, path, h').verb != ""
  {
  }

  lemma RegisterSnoc(verb: string, path: string, handlers: seq<Action>, i: nat)
    requires i < |handlers|
    ensures Register(verb, path, handlers[..i + 1]) ==
            Register(verb, path, handlers[..i]) + [RouteOf(verb, path, handlers[i])]
  {
    WithHandlersSnoc(RouteTemplate(verb, path), handlers, i);
  }

  /** A single handler registers a single route, a middleware only for USE. */
  lemma RegisterOne(verb: string, path: string, h: Action)
    ensures Register(verb, path, [h]) == [RouteOf(verb, path, h)]
    ensures RouteOf(verb, path, h).isMiddleware <==> verb == "USE"
    ensures verb != "" ==> RouteOf(verb, path, h).verb != ""
  {
  }

  /** Every route of one registration shares everything but its handler. */
  lemma RegisterUniform(verb: string, path: string, handlers: seq<Action>, i: nat, j: nat)
    requires i < |handlers| && j < |handlers|
    ensures Register(verb, path, handlers)[i] ==
            Register(verb, path, handlers)[j].(handler := handlers[i])
  {
  }

  /** Registering handlers in two calls gives the routes of one call. */
  lemma RegisterAppend(verb: string, path: string, a: seq<Action>, b: seq<Action>)
    ensures Register(verb, path, a + b) == Register(verb, path, a) + Register(verb, path, b)
  {
    WithHandlersAppend(RouteTemplate(verb, path), a, b);
  }

  /**
   * The controller preload registered under an empty prefix is a middleware
   * at "/" that matches every request.
   */
  lemma EmptyPrefixPreload(h: Action, verb: string, request: string)
    ensures var r := RouteOf("USE", "", h);
      r.isMiddleware && r.isStar && r.path == "/" && MatchRoute(r, verb, request) == (true, [])
  {
    var r := RouteOf("USE", "", h);
    assert Rooted("") == "/";
    assert ToLower("/") == "/";
    assert ParamsSpec("/") == [] by { ParamsOfSlash(); }
  }

  lemma ParamsOfSlash()
    ensures ParamsSpec("/") == []
  {
    assert Split("/", '/') == ["", ""] by {
      NoSepSplit("", '/');
      SplitConcat("", "", '/');
      assert "" + ['/'] + "" == "/";
    }
    var segs := ["", ""];
    assert segs[..1] == [""] && segs[..1][..0] == [];
    assert ParamsOf(segs[..1]) == [];
  }

  // ---------------------------------------------------------------------
  // Controllers (buildHands)

  /**
   * An exported method of a controller, in the order reflection lists them:
   * its Go name and, when its signature is func(*Ctx), the handler it is.
   */
  datatype ControllerMethod = ControllerMethod(name: string, handler: Option<Action>)

  /** The switch of buildHands: the route method and the cutset a route name's verb selects. */
  function VerbOf(name: string): (r: Option<(string, string)>)
    ensures r.Some? ==> r.value.0 != "" && r.value.0 != "USE" && HasPrefix(name, r.value.1)
  {
    if HasPrefix(name, "get") then Some(("GET", "get"))
    else if HasPrefix(name, "post") then Some(("POST", "post"))
    else if HasPrefix(name, "put") then Some(("PUT", "put"))
    else if HasPrefix(name, "delete") then Some(("DELETE", "delete"))
    else if HasPrefix(name, "patch") then Some(("PATCH", "patch"))
    else if HasPrefix(name, "head") then Some(("HEAD", "head"))
    else if HasPrefix(name, "all") then Some(("ALL", "all"))
    else None
  }

  /** The route a controller method contributes: none unless its name starts with a verb and it is a handler. */
  function MethodRoute(prefix: string, m: ControllerMethod): seq<Route>
  {
    NamedRoute(prefix, Namer.Namer(m.name), m.handler)
  }

  /** The route for a method whose route name is `name`. */
  function NamedRoute(prefix: string, name: string, handler: Option<Action>): seq<Route>
  {
    match VerbOf(name)
    case None => []
    case Some(vt) =>
      if handler.None? then [] else Register(vt.0, Namer.FixURI(prefix, name, vt.1), [handler.value])
  }

  /** At most one route, and never a middleware. */
  lemma NamedRouteShape(prefix: string, name: string, handler: Option<Action>)
    ensures var rs := NamedRoute(prefix, name, handler);
      rs == [] || (|rs| == 1 && !rs[0].isMiddleware && rs[0].verb != "")
  {
    var t := VerbOf(name);
    if t.Some? && handler.Some? {
      var vt := t.value;
      assert vt.0 != "" && vt.0 != "USE";
      var uri := Namer.FixURI(prefix, name, vt.1);
      RegisterOne(vt.0, uri, handler.value);
      assert NamedRoute(prefix, name, handler) == Register(vt.0, uri, [handler.value]);
    }
  }

  /** The routes of a controller's methods, in reflection order. */
  function MethodRoutes(prefix: string, methods: seq<ControllerMethod>): seq<Route>
    decreases |methods|
  {
    if |methods| == 0 then []
    else MethodRoutes(prefix, methods[..|methods| - 1]) + MethodRoute(prefix, methods[|methods| - 1])
  }

  lemma MethodRoutesSnoc(prefix: string, methods: seq<ControllerMethod>, i: nat)
    requires i < |methods|
    ensures MethodRoutes(prefix, methods[..i + 1]) == MethodRoutes(prefix, methods[..i]) + MethodRoute(prefix, methods[i])
  {
    assert methods[..i + 1][..i] == methods[..i];
  }

  /** The health-check route every controller registration ends with: GET /check answers "ok". */
  const CheckRoute: Route :=
    Route(isGet := true, isMiddleware := false, isStar := false, isSlash := false, isRegex := false,
      verb := "GET", path := CheckPath, params := [], matcher := [], handler := Respond("ok"))

  const CheckPath: string := "/check"

  /** The health check is what registering GET /check with a handler that sends "ok" gives. */
  lemma CheckRouteRegistered()
    ensures Register("GET", CheckPath, [Respond("ok")]) == [CheckRoute]
  {
    var w := CheckPath[1..];
    assert CheckPath == "/" + w;
    assert LowerWord(w);
    PlainRoute("GET", w, Respond("ok"));
    RegisterOne("GET", CheckPath, Respond("ok"));
  }

  /** A word of lower-case letters. */
  predicate LowerWord(w: string)
  {
    |w| > 0 && forall i :: 0 <= i < |w| ==> 'a' <= w[i] <= 'z'
  }

  /** A route at "/" followed by a lower-case word is stored as written and has no parameters. */
  lemma PlainRoute(verb: string, w: string, h: Action)
    requires LowerWord(w)
    ensures RouteOf(verb, "/" + w, h) ==
      Route(verb == "GET", verb == "USE", false, false, false,
        if verb == "USE" || verb == "ALL" then "*" else verb, "/" + w, [], [], h)
  {
    PlainCanonical(w);
    PlainParams(w);
  }

  lemma PlainCanonical(w: string)
    requires LowerWord(w)
    ensures Rooted("/" + w) == "/" + w && Canonical("/" + w) == "/" + w
  {
    var p := "/" + w;
    assert ToLower(p) == p;
    assert p[|p| - 1] != '/';
    TrimRightRun(p, "", '/');
    assert p + "" == p;
  }

  lemma PlainParams(w: string)
    requires LowerWord(w)
    ensures ParamsSpec("/" + w) == []
  {
    var p := "/" + w;
    NoSepSplit(w, '/');
    NoSepSplit("", '/');
    SplitConcat("", w, '/');
    assert "" + ['/'] + w == p;
    var segs := Split(p, '/');
    assert segs == ["", w];
    assert segs[..1] == [""] && segs[..1][..0] == [];
    assert w[0] != ':' && '*' !in w;
    assert SegmentParams(w) == [];
    assert SegmentParams("") == [];
    assert ParamsOf(segs[..1]) == [];
    assert ParamsOf(segs) == ParamsOf(segs[..1]) + SegmentParams(w);
  }

  /** "/a/:n" splits into the root, the word and the parameter segment. */
  lemma ParamSplit(a: string, n: string)
    requires LowerWord(a) && LowerWord(n)
    ensures Split("/" + a + "/:" + n, '/') == ["", a, ":" + n]
  {
    var seg := ":" + n;
    assert '/' !in a && '/' !in seg;
    assert "/" + a + "/:" + n == "" + ['/'] + (a + ['/'] + seg);
    NoSepSplit("", '/');
    NoSepSplit(a, '/');
    NoSepSplit(seg, '/');
    SplitConcat(a, seg, '/');
    SplitConcat("", a + ['/'] + seg, '/');
  }

  /** "/a/:n" is already rooted and canonical. */
  lemma ParamCanonical(a: string, n: string)
    requires LowerWord(a) && LowerWord(n)
    ensures Rooted("/" + a + "/:" + n) == "/" + a + "/:" + n
    ensures Canonical("/" + a + "/:" + n) == "/" + a + "/:" + n
  {
    var p := "/" + a + "/:" + n;
    assert forall i :: 0 <= i < |p| ==> !IsUpper(p[i]) by {
      forall i | 0 <= i < |p|
        ensures !IsUpper(p[i])
      {
        if 1 <= i <= |a| {
          assert p[i] == a[i - 1];
        } else if i > |a| + 2 {
          assert p[i] == n[i - |a| - 3];
        }
      }
    }
    assert ToLower(p) == p;
    assert p[|p| - 1] == n[|n| - 1] != '/';
    TrimRightRun(p, "", '/');
    assert p + "" == p;
  }

  /** The one name "/a/:n" declares is `n`. */
  lemma ParamNames(a: string, n: string)
    requires LowerWord(a) && LowerWord(n)
    ensures ParamsSpec("/" + a + "/:" + n) == [n]
  {
    var segs := ["", a, ":" + n];
    ParamSplit(a, n);
    WordNoParams(a);
    MarkedNames(n);
    assert segs[..2] == ["", a];
    assert ParamsOf(segs) == ParamsOf(segs[..2]) + [n];
  }

  /** The segments "" and `a` declare no names. */
  lemma WordNoParams(a: string)
    requires LowerWord(a)
    ensures ParamsOf(["", a]) == []
  {
    var segs := ["", a];
    assert a[0] != ':' && '*' !in a;
    assert SegmentParams(a) == [];
    assert segs[..1] == [""] && segs[..1][..0] == [];
    assert ParamsOf(segs[..1]) == [];
  }

  /** The segment ":n" declares the name `n`. */
  lemma MarkedNames(n: string)
    requires LowerWord(n)
    ensures SegmentParams(":" + n) == [n]
  {
    var seg := ":" + n;
    assert ':' !in n && '?' !in n;
    StripMarksRemoves(seg);
    UnmarkedPlain(n);
    assert seg[1..] == n;
    assert Unmarked(seg) == n;
    assert '*' !in seg;
  }

  /** "/a/:n" compiles to the literal `a` followed by a required parameter. */
  lemma ParamMatcher(a: string, n: string)
    requires LowerWord(a) && LowerWord(n)
    ensures Compile("/" + a + "/:" + n) == [Lit(a), Req]
  {
    var seg := ":" + n;
    var segs := ["", a, seg];
    ParamSplit(a, n);
    assert '?' !in seg;
    assert a[0] != ':' && a[0] != '*';
    assert SegmentKind(a) == [Lit(a)];
    assert segs[..2] == ["", a] && segs[..2][..1] == [""] && segs[..2][..1][..0] == [];
    assert CompileSegs(segs[..2][..1]) == [];
    assert CompileSegs(segs[..2]) == [Lit(a)];
  }

  /** The route registered at "/a/:n": a pattern route with one name and one required segment. */
  lemma ParamRoute(verb: string, a: string, n: string, h: Action)
    requires LowerWord(a) && LowerWord(n)
    ensures RouteOf(verb, "/" + a + "/:" + n, h) ==
      Route(verb == "GET", verb == "USE", false, false, true,
        if verb == "USE" || verb == "ALL" then "*" else verb, "/" + a + "/:" + n, [n], [Lit(a), Req], h)
  {
    ParamCanonical(a, n);
    ParamNames(a, n);
    ParamMatcher(a, n);
  }

  /** Everything buildHands registers for a controller. */
  function HandRoutes(prefix: string, preload: Action, methods: seq<ControllerMethod>): seq<Route>
  {
    Register("USE", prefix, [preload]) + MethodRoutes(prefix, methods) + [CheckRoute]
  }

  /**
   * A controller registers its preload first, as a middleware at its
   * prefix, then at most one route per method, none of them a middleware,
   * and the health check last.
   */
  lemma HandRoutesShape(prefix: string, preload: Action, methods: seq<ControllerMethod>)
    ensures var rs := HandRoutes(prefix, preload, methods);
      && 2 <= |rs| <= |methods| + 2
      && rs[0] == RouteOf("USE", prefix, preload) && rs[0].isMiddleware
      && rs[|rs| - 1] == CheckRoute
      && (forall k :: 0 < k < |rs| ==> !rs[k].isMiddleware && rs[k].verb != "")
  {
    MethodRoutesShape(prefix, methods);
    RegisterOne("USE", prefix, preload);
    Framed(RouteOf("USE", prefix, preload), MethodRoutes(prefix, methods), CheckRoute);
  }

  /** A first route, plain routes, and a plain last route. */
  lemma Framed(head: Route, mid: seq<Route>, last: Route)
    requires PlainRoutes(mid) && !last.isMiddleware && last.verb != ""
    ensures var rs := [head] + mid + [last];
      |rs| == |mid| + 2 && rs[0] == head && rs[|rs| - 1] == last
      && forall k :: 0 < k < |rs| ==> !rs[k].isMiddleware && rs[k].verb != ""
  {
    var rs := [head] + mid + [last];
    forall k | 0 < k < |rs|
      ensures !rs[k].isMiddleware && rs[k].verb != ""
    {
      if k <= |mid| {
        assert rs[k] == mid[k - 1];
      }
    }
  }

  lemma {:induction false} MethodRoutesShape(prefix: string, methods: seq<ControllerMethod>)
    ensures |MethodRoutes(prefix, methods)| <= |methods|
    ensures forall k :: 0 <= k < |MethodRoutes(prefix, methods)| ==>
      !MethodRoutes(prefix, methods)[k].isMiddleware && MethodRoutes(prefix, methods)[k].verb != ""
    decreases |methods|
  {
    if |methods| > 0 {
      var init := methods[..|methods| - 1];
      MethodRoutesShape(prefix, init);
      var m := methods[|methods| - 1];
      NamedRouteShape(prefix, Namer.Namer(m.name), m.handler);
      PlainAppend(MethodRoutes(prefix, init), MethodRoute(prefix, m));
    }
  }

  /** Routes that are neither middleware nor without a method. */
  predicate PlainRoutes(rs: seq<Route>)
  {
    forall k :: 0 <= k < |rs| ==> !rs[k].isMiddleware && rs[k].verb != ""
  }

  lemma PlainAppend(a: seq<Route>, b: seq<Route>)
    requires PlainRoutes(a) && (b == [] || (|b| == 1 && !b[0].isMiddleware && b[0].verb != ""))
    ensures PlainRoutes(a + b) && |a + b| <= |a| + 1
  {
  }

  /** A method whose route name starts with a verb and that is a handler is registered for that verb. */
  lemma VerbMethodRegistered(prefix: string, m: ControllerMethod, verb: string, tag: string)
    requires m.handler.Some? && VerbOf(Namer.Namer(m.name)) == Some((verb, tag))
    ensures var name := Namer.Namer(m.name);
      MethodRoute(prefix, m) == [RouteOf(verb, Namer.FixURI(prefix, name, tag), m.handler.value)]
      && (verb == "ALL" ==> MethodRoute(prefix, m)[0].verb == "*" && !MethodRoute(prefix, m)[0].isMiddleware)
      && (verb == "GET" <==> MethodRoute(prefix, m)[0].isGet)
  {
    var name := Namer.Namer(m.name);
    var uri := Namer.FixURI(prefix, name, tag);
    NamedRouteVerb(prefix, name, m.handler, verb, tag);
    RouteOfVerb(verb, uri, m.handler.value);
  }

  /** A verb-named handler gets exactly the route of its verb at its fixed-up path. */
  lemma NamedRouteVerb(prefix: string, name: string, handler: Option<Action>, verb: string, tag: string)
    requires handler.Some? && VerbOf(name) == Some((verb, tag))
    ensures NamedRoute(prefix, name, handler) == [RouteOf(verb, Namer.FixURI(prefix, name, tag), handler.value)]
  {
    RegisterOne(verb, Namer.FixURI(prefix, name, tag), handler.value);
  }

  /** The verb fields of a route: USE and ALL match every method, only GET sets isGet. */
  lemma RouteOfVerb(verb: string, path: string, h: Action)
    ensures RouteOf(verb, path, h).verb == (if verb == "USE" || verb == "ALL" then "*" else verb)
    ensures RouteOf(verb, path, h).isGet <==> verb == "GET"
    ensures RouteOf(verb, path, h).isMiddleware <==> verb == "USE"
  {
  }

  // ---------------------------------------------------------------------
  // Use

  /** An argument of Use: a path, a handler, a controller, or anything else. */
  datatype UseArg =
    | PathArg(path: string)
    | FuncArg(h: Action)
    | HandleArg(hand: Handler.Handler, preload: Action, methods: seq<ControllerMethod>)
    | OtherArg

  /** The controllers among Use's arguments. */
  function Hands(args: seq<UseArg>): set<Handler.Handler>
  {
    set i | 0 <= i < |args| && args[i].HandleArg? :: args[i].hand
  }

  /** An argument of Use as the scan sees it: a controller by its prefix. */
  datatype UseItem =
    | PathItem(path: string)
    | FuncItem(h: Action)
    | HandleItem(prefix: string, preload: Action, methods: seq<ControllerMethod>)
    | OtherItem

  /** What the scan sees of one argument: a controller's current prefix. */
  function ItemOf(a: UseArg): (item: UseItem)
    reads if a.HandleArg? then {a.hand} else {}
    ensures a.HandleArg? <==> item.HandleItem?
  {
    match a
    case PathArg(p) => PathItem(p)
    case FuncArg(h) => FuncItem(h)
    case HandleArg(hand, preload, methods) => HandleItem(hand.prefix, preload, methods)
    case OtherArg => OtherItem
  }

  /** Use's arguments as the scan sees them, one item per argument. */
  function Items(args: seq<UseArg>): (items: seq<UseItem>)
    reads Hands(args)
    ensures |items| == |args| && forall k :: 0 <= k < |args| ==> items[k] == ItemOf(args[k])
    decreases |args|
  {
    if |args| == 0 then []
    else
      var init := args[..|args| - 1];
      assert Hands(init) <= Hands(args) by {
        forall i | 0 <= i < |init| ensures init[i] == args[i] { }
      }
      Items(init) + [ItemOf(args[|args| - 1])]
  }

  /** Use's state after a prefix of its arguments. */
  datatype UseScan = UseScan(path: string, handlers: seq<Action>, skip: bool, added: seq<Route>, fatal: bool)

  /**
   * Use's scan of its arguments, left to right: the last path wins, handlers
   * are collected, a controller is registered at once, and any other
   * argument is fatal.
   */
  function ScanUse(items: seq<UseItem>): UseScan
    decreases |items|
  {
    if |items| == 0 then UseScan("", [], false, [], false)
    else UseStep(ScanUse(items[..|items| - 1]), items[|items| - 1])
  }

  lemma ScanUseSnoc(items: seq<UseItem>, i: nat)
    requires i < |items|
    ensures ScanUse(items[..i + 1]) == UseStep(ScanUse(items[..i]), items[i])
  {
    TakeSnoc(items, i);
  }

  /** A controller argument marks the scan as skipping and adds the controller's routes. */
  lemma StepHandle(st: UseScan, item: UseItem, delta: seq<Route>)
    requires !st.fatal && item.HandleItem? && delta == HandRoutes(item.prefix, item.preload, item.methods)
    ensures UseStep(st, item) == st.(skip := true, added := st.added + delta)
  {
  }

  /** One argument of Use: nothing happens once the scan is fatal. */
  function UseStep(st: UseScan, item: UseItem): UseScan
  {
    if st.fatal then st
    else match item
      case PathItem(p) => st.(path := p)
      case FuncItem(h) => st.(handlers := st.handlers + [h])
      case HandleItem(prefix, preload, methods) =>
        st.(skip := true, added := st.added + HandRoutes(prefix, preload, methods))
      case OtherItem => st.(fatal := true)
  }

  /** The routes Use registers and whether it is fatal. */
  function UseRoutes(items: seq<UseItem>): (seq<Route>, bool)
  {
    var st := ScanUse(items);
    if st.fatal then (st.added, true)
    else if st.skip then (st.added, false)
    else (st.added + Register("USE", st.path, st.handlers), |st.handlers| == 0)
  }

  /** A path followed by handlers registers one middleware per handler at that path; with no handler, it is fatal. */
  lemma {:induction false} UsePathHandlers(p: string, hs: seq<Action>)
    ensures var args := [PathItem(p)] + seq(|hs|, j requires 0 <= j < |hs| => FuncItem(hs[j]));
      UseRoutes(args) == (Register("USE", p, hs), |hs| == 0)
  {
    var args := [PathItem(p)] + seq(|hs|, j requires 0 <= j < |hs| => FuncItem(hs[j]));
    ScanFuncs(p, hs, |hs|);
    TakeAll(args);
    TakeAll(hs);
    UseRoutesPlain(args, UseScan(p, hs, false, [], false));
    EmptyAppend(Register("USE", p, hs));
  }

  /** Without controllers and without a fatal argument, Use registers its handlers at its path. */
  lemma UseRoutesPlain(items: seq<UseItem>, st: UseScan)
    requires ScanUse(items) == st && !st.fatal && !st.skip
    ensures UseRoutes(items) == (st.added + Register("USE", st.path, st.handlers), |st.handlers| == 0)
  {
  }

  lemma {:induction false} ScanFuncs(p: string, hs: seq<Action>, n: nat)
    requires n <= |hs|
    ensures var args := [PathItem(p)] + seq(|hs|, j requires 0 <= j < |hs| => FuncItem(hs[j]));
      ScanUse(args[..1 + n]) == UseScan(p, hs[..n], false, [], false)
  {
    var args := [PathItem(p)] + seq(|hs|, j requires 0 <= j < |hs| => FuncItem(hs[j]));
    if n == 0 {
      assert args[..1] == [PathItem(p)];
      assert args[..1][..0] == [];
    } else {
      ScanFuncs(p, hs, n - 1);
      assert args[..1 + n][..n] == args[..n];
      assert args[n] == FuncItem(hs[n - 1]);
      assert hs[..n] == hs[..n - 1] + [hs[n - 1]];
    }
  }

  /** Once an argument is fatal, the rest are not looked at. */
  lemma {:induction false} ScanUseFatal(args: seq<UseItem>, i: nat)
    requires i <= |args| && ScanUse(args[..i]).fatal
    ensures ScanUse(args) == ScanUse(args[..i])
    decreases |args| - i
  {
    if i < |args| {
      assert args[..i + 1][..i] == args[..i];
      assert ScanUse(args[..i + 1]) == ScanUse(args[..i]);
      ScanUseFatal(args, i + 1);
    } else {
      assert args[..i] == args;
    }
  }

  // ---------------------------------------------------------------------
  // Static files (regStatic)

  /** The optional settings of Static. */
  datatype StaticConfig = StaticConfig(compress: bool, byteRange: bool, browse: bool, index: string)

  /** The prefix regStatic starts from: "/" for "", and rooted unless it starts with '*'. */
  function StaticPrefix(prefix: string): (p: string)
    ensures |p| > 0 && (p[0] == '/' || p[0] == '*')
  {
    var q := if prefix == "" then "/" else prefix;
    if q[0] != '/' && q[0] != '*' then "/" + q else q
  }

  /**
   * regStatic's treatment of the prefix: the prefix it stores, whether the
   * route serves one file for every path (a '*' anywhere), and whether the
   * prefix is the root.
   */
  function StaticPath(prefix: string): (string, bool, bool)
  {
    var p := StaticPrefix(prefix);
    var whole := p == "*" || p == "/*";
    var lower := ToLower(if whole then "/" else p);
    var starred := '*' in lower;
    (if starred then Split(lower, '*')[0] else lower, whole || starred, lower == "/")
  }

  /** The directory regStatic serves from: "." for "", with one trailing '/' removed. */
  function StaticDir(root: string): string
  {
    var r := if root == "" then "." else root;
    if r[|r| - 1] == '/' then r[..|r| - 1] else r
  }

  /** The route regStatic registers. */
  function StaticRoute(prefix: string, root: string, config: Option<StaticConfig>): Route
  {
    var (stored, wildcard, isSlash) := StaticPath(prefix);
    var site := StaticSite(
      root := StaticDir(root),
      prefix := stored,
      wildcard := wildcard,
      stripper := if isSlash then 0 else |stored|,
      compress := config.Some? && config.value.compress,
      byteRange := config.Some? && config.value.byteRange,
      browse := config.Some? && config.value.browse,
      indexNames := if config.Some? && config.value.index != "" then [config.value.index] else ["index.html"]);
    Route(false, true, false, isSlash, false, "*", stored, [], [], Static(site))
  }

  /** A '*' never survives in the stored prefix; it makes the route rewrite every request to that prefix. */
  lemma StaticRouteShape(prefix: string, root: string, config: Option<StaticConfig>)
    ensures var route := StaticRoute(prefix, root, config);
      var site := route.handler.site;
      && route.isMiddleware && route.verb == "*" && !route.isRegex && !route.isStar
      && '*' !in route.path && NoUpper(route.path) && site.prefix == route.path
      && (site.wildcard <==> '*' in StaticPrefix(prefix))
      && site.stripper == (if route.isSlash then 0 else |route.path|)
      && (var r := if root == "" then "." else root;
          site.root + (if r[|r| - 1] == '/' then "/" else "") == r)
  {
    StaticPathShape(prefix);
    StaticDirShape(root);
  }

  /** The stored prefix has no '*' and no upper case; the wildcard flag records any '*'. */
  lemma StaticPathShape(prefix: string)
    ensures var (stored, wildcard, _) := StaticPath(prefix);
      '*' !in stored && NoUpper(stored) && (wildcard <==> '*' in StaticPrefix(prefix))
  {
    var p := StaticPrefix(prefix);
    var whole := p == "*" || p == "/*";
    var lower := ToLower(if whole then "/" else p);
    LowerHasNoUpper(if whole then "/" else p);
    assert whole ==> lower == "/";
    assert !whole ==> ('*' in lower <==> '*' in p) by {
      if !whole {
        assert forall i :: 0 <= i < |p| ==> (lower[i] == '*' <==> p[i] == '*');
      }
    }
    if '*' in lower {
      var parts := Split(lower, '*');
      SplitPieces(lower, '*');
      SplitPrefix(lower, '*');
      var stored := parts[0];
      assert forall i :: 0 <= i < |stored| ==> stored[i] == lower[i];
    }
  }

  /** The served directory is the root ("." for none) less one trailing '/'. */
  lemma StaticDirShape(root: string)
    ensures var r := if root == "" then "." else root;
      StaticDir(root) + (if r[|r| - 1] == '/' then "/" else "") == r
  {
    var r := if root == "" then "." else root;
    if r[|r| - 1] == '/' {
      SplitLast(r);
    }
  }

  // ---------------------------------------------------------------------
  // Errors and addresses

  /** A framework error: a status code and its message. */
  datatype Error = Error(code: int, message: string)

  /** NewError: the message given, or else the status's reason phrase. */
  function NewError(code: int, message: seq<string>): (e: Error)
    ensures e.code == code
    ensures |message| > 0 ==> e.message == message[0]
    ensures |message| == 0 ==> e.message == StatusMessage(code)
  {
    Error(code, if |message| > 0 then message[0] else StatusMessage(code))
  }

  /** The listen address handed to Serve: a string, an int port, or anything else. */
  datatype Address = StringAddress(s: string) | PortAddress(port: int) | OtherAddress

  /** Serve's address normalisation: a port number becomes ":port", and so does a string without ':'. */
  function ListenAddress(a: Address): Result<string, string>
  {
    match a
    case OtherAddress => Failure("serve: host must be an int port or string address")
    case StringAddress(s) => Success(if ':' in s then s else ":" + s)
    case PortAddress(n) => var s := Itoa(n); Success(if ':' in s then s else ":" + s)
  }

  /** Every accepted address names a port after a ':'; a port number is kept exactly. */
  lemma ListenAddressShape(a: Address)
    ensures ListenAddress(a).Failure? <==> a.OtherAddress?
    ensures ListenAddress(a).Success? ==> ':' in ListenAddress(a).value
    ensures a.StringAddress? && ':' in a.s ==> ListenAddress(a).value == a.s
    ensures a.StringAddress? && ':' !in a.s ==> ListenAddress(a).value == ":" + a.s
    ensures a.PortAddress? && a.port >= 0 ==>
      var v := ListenAddress(a).value;
      v[0] == ':' && (forall i :: 1 <= i < |v| ==> IsDigit(v[i])) && DecimalValue(v[1..]) == a.port
  {
    if a.PortAddress? {
      var s := Itoa(a.port);
      if a.port >= 0 {
        assert s == Digits(a.port);
        assert forall i :: 0 <= i < |s| ==> IsDigit(s[i]);
        assert ':' !in s;
        var v := ":" + s;
        assert v[1..] == s;
        DigitsValue(a.port);
      } else {
        assert s == "-" + Digits(-a.port);
        assert forall i :: 1 <= i < |s| ==> IsDigit(s[i]);
        assert ':' !in s;
      }
      assert ":" + s != "" && (":" + s)[0] == ':';
    }
  }

  // ---------------------------------------------------------------------
  // Dispatch

  /** The state one request's dispatch works on: the context's cursor and match, and the exchange. */
  datatype Exchange = Exchange(
    index: int,
    route: Option<Route>,
    values: seq<string>,
    err: Option<string>,
    uri: string,
    status: int,
    body: string,
    headers: map<string, string>,
    cookies: map<string, Context.ResponseCookie>)

  /** The file server behind a static route: status and body for a request URI. */
  type FileServer = (StaticSite, string) -> (int, string)

  /** Every route's method is non-empty, so matching may look at its first character. */
  predicate Dispatchable(routes: seq<Route>)
  {
    forall k :: 0 <= k < |routes| ==> routes[k].verb != ""
  }

  /**
   * One step of nextRoute: advance the cursor and, when the route there
   * matches, run its handler.  The flag says whether the scan goes on (the
   * handler called Next without an error, or the route did not match).
   */
  function Step(routes: seq<Route>, verb: string, path: string, files: FileServer, x: Exchange): (s: (Exchange, bool))
    requires Dispatchable(routes) && -1 <= x.index < |routes| - 1
    ensures s.0.index == x.index + 1
  {
    var i := x.index + 1;
    var route := routes[i];
    var m := MatchRoute(route, verb, path);
    if !m.0 then (x.(index := i), true)
    else
      var y := x.(index := i, route := Some(route), values := m.1);
      var next := y.(route := None, values := []);
      match route.handler
      case Respond(b) => (y.(body := b), false)
      case Continue => (next, true)
      case ContinueErr(e) => (next.(err := Some(e)), false)
      case Static(site) => StaticStep(verb, site, files, y)
  }

  /**
   * The file server's handler on a matched exchange `y`: a GET or HEAD that
   * finds a file ends the scan; otherwise the response is reset and the scan
   * goes on with the next route.
   */
  function StaticStep(verb: string, site: StaticSite, files: FileServer, y: Exchange): (s: (Exchange, bool))
    ensures s.0.index == y.index
    ensures !s.1 ==> s.0.route == y.route && s.0.values == y.values
    ensures s.1 ==> s.0.route == None && s.0.values == []
  {
    var next := y.(route := None, values := []);
    if verb == "GET" || verb == "HEAD" then
      var uri := if site.wildcard then site.prefix else y.uri;
      var served := files(site, uri);
      if served.0 != 404 && served.0 != 403 then (y.(uri := uri, status := served.0, body := served.1), false)
      else (next.(uri := uri, status := 200, body := "", headers := map[], cookies := map[]), true)
    else (next, true)
  }

  /**
   * nextRoute, with the handlers' calls of Next unfolded: step through the
   * table until a handler ends the scan; on exhaustion, an empty body
   * becomes a 404.
   */
  function Dispatch(routes: seq<Route>, verb: string, path: string, files: FileServer, x: Exchange): (r: Exchange)
    requires Dispatchable(routes) && x.index >= -1
    ensures x.index <= r.index
    ensures r.index <= x.index || r.index < |routes|
    decreases |routes| - x.index
  {
    if x.index < |routes| - 1 then
      var s := Step(routes, verb, path, files, x);
      if s.1 then Dispatch(routes, verb, path, files, s.0) else s.0
    else if x.body == "" then x.(status := 404, body := StatusMessage(404))
    else x
  }

  /** The dispatch state held by a context and its request. */
  function Snapshot(c: Context.Ctx): Exchange
    requires c.fctx != null
    reads c, c.fctx
  {
    Exchange(c.index, c.route, c.values, c.err, c.fctx.uri, c.fctx.status, c.fctx.body,
      c.fctx.headers, c.fctx.cookies)
  }

  lemma DispatchableSnoc(routes: seq<Route>, r: Route)
    requires Dispatchable(routes) && r.verb != ""
    ensures Dispatchable(routes + [r])
  {
  }

  /** Whether route `k` serves the request. */
  predicate Matches(routes: seq<Route>, k: nat, verb: string, path: string)
    requires Dispatchable(routes) && k < |routes|
  {
    MatchRoute(routes[k], verb, path).0
  }

  /** Routes that do not match are passed over: dispatch resumes just before the next one that might. */
  lemma {:induction false} DispatchSkips(routes: seq<Route>, verb: string, path: string, files: FileServer, x: Exchange, j: int)
    requires Dispatchable(routes) && x.index >= -1 && x.index <= j < |routes|
    requires forall k :: x.index < k <= j ==> !Matches(routes, k, verb, path)
    ensures Dispatch(routes, verb, path, files, x) == Dispatch(routes, verb, path, files, x.(index := j))
    decreases j - x.index
  {
    if x.index < j {
      var y := x.(index := x.index + 1);
      DispatchSkipOne(routes, verb, path, files, x);
      DispatchSkips(routes, verb, path, files, y, j);
      assert y.(index := j) == x.(index := j);
    } else {
      assert x.(index := j) == x;
    }
  }

  /** A route that does not match only moves the cursor. */
  lemma DispatchSkipOne(routes: seq<Route>, verb: string, path: string, files: FileServer, x: Exchange)
    requires Dispatchable(routes) && -1 <= x.index < |routes| - 1
    requires !Matches(routes, x.index + 1, verb, path)
    ensures Dispatch(routes, verb, path, files, x) == Dispatch(routes, verb, path, files, x.(index := x.index + 1))
  {
    assert Step(routes, verb, path, files, x) == (x.(index := x.index + 1), true);
  }

  /**
   * The first route after the cursor that matches decides: a responding
   * handler ends dispatch there with its body, an error ends it with the
   * error recorded, and a passing handler resumes the scan after it with the
   * match forgotten.
   */
  lemma FirstMatch(routes: seq<Route>, verb: string, path: string, files: FileServer, x: Exchange, j: nat)
    requires Dispatchable(routes) && x.index >= -1 && x.index < j < |routes|
    requires forall k :: x.index < k < j ==> !Matches(routes, k, verb, path)
    requires Matches(routes, j, verb, path)
    ensures var r := Dispatch(routes, verb, path, files, x);
      var values := MatchRoute(routes[j], verb, path).1;
      var passed := x.(index := j, route := None, values := []);
      && (routes[j].handler.Respond? ==>
            r == x.(index := j, route := Some(routes[j]), values := values, body := routes[j].handler.body))
      && (routes[j].handler.ContinueErr? ==> r == passed.(err := Some(routes[j].handler.err)))
      && (routes[j].handler.Continue? ==> r == Dispatch(routes, verb, path, files, passed))
      && (routes[j].handler.Static? && verb != "GET" && verb != "HEAD" ==>
            r == Dispatch(routes, verb, path, files, passed))
  {
    DispatchSkips(routes, verb, path, files, x, j - 1);
    var y := x.(index := j - 1);
    StepMatched(routes, verb, path, files, y);
    assert y.(index := j) == x.(index := j);
  }

  /** The route just after the cursor matches: its handler decides what dispatch does next. */
  lemma StepMatched(routes: seq<Route>, verb: string, path: string, files: FileServer, y: Exchange)
    requires Dispatchable(routes) && -1 <= y.index < |routes| - 1
    requires Matches(routes, y.index + 1, verb, path)
    ensures var i := y.index + 1;
      var r := Dispatch(routes, verb, path, files, y);
      var values := MatchRoute(routes[i], verb, path).1;
      var passed := y.(index := i).(route := None, values := []);
      && (routes[i].handler.Respond? ==>
            r == y.(index := i).(route := Some(routes[i]), values := values, body := routes[i].handler.body))
      && (routes[i].handler.ContinueErr? ==> r == passed.(err := Some(routes[i].handler.err)))
      && (routes[i].handler.Continue? ==> r == Dispatch(routes, verb, path, files, passed))
      && (routes[i].handler.Static? && verb != "GET" && verb != "HEAD" ==>
            r == Dispatch(routes, verb, path, files, passed))
  {
  }

  /** With no route left that matches, the cursor runs to the end and an empty body becomes a 404. */
  lemma NoMatch(routes: seq<Route>, verb: string, path: string, files: FileServer, x: Exchange)
    requires Dispatchable(routes) && -1 <= x.index < |routes|
    requires forall k :: x.index < k < |routes| ==> !Matches(routes, k, verb, path)
    ensures var r := Dispatch(routes, verb, path, files, x);
      && r.index == |routes| - 1
      && r.route == x.route && r.values == x.values && r.err == x.err && r.uri == x.uri
      && (x.body == "" ==> r.status == 404 && r.body == "Not Found")
      && (x.body != "" ==> r.status == x.status && r.body == x.body)
  {
    if x.index < |routes| - 1 {
      DispatchSkips(routes, verb, path, files, x, |routes| - 1);
    }
    StatusMessageRange(404);
  }

  /** A table of passing middleware alone answers every request with a 404. */
  lemma {:induction false} PassThrough(routes: seq<Route>, verb: string, path: string, files: FileServer, x: Exchange)
    requires Dispatchable(routes) && -1 <= x.index < |routes|
    requires forall k :: x.index < k < |routes| ==> routes[k].handler.Continue?
    requires x.body == "" && x.err.None?
    ensures var r := Dispatch(routes, verb, path, files, x);
      r.index == |routes| - 1 && r.status == 404 && r.body == "Not Found" && r.err.None?
    decreases |routes| - x.index
  {
    StatusMessageRange(404);
    if x.index < |routes| - 1 {
      var i := x.index + 1;
      var m := MatchRoute(routes[i], verb, path);
      if m.0 {
        PassThrough(routes, verb, path, files, x.(index := i, route := None, values := []));
      } else {
        PassThrough(routes, verb, path, files, x.(index := i));
      }
    }
  }

  // ---------------------------------------------------------------------
  // A controller end to end: a prefix word `a`, a method `Get` answering
  // `b1`, and a method `PostParam` answering `b2`

  /** A controller with two verb-named handler methods registers its preload, their routes and the health check. */
  lemma TwoMethodRoutes(prefix: string, preload: Action, m0: ControllerMethod, m1: ControllerMethod,
                        v0: string, t0: string, v1: string, t1: string)
    requires m0.handler.Some? && VerbOf(Namer.Namer(m0.name)) == Some((v0, t0))
    requires m1.handler.Some? && VerbOf(Namer.Namer(m1.name)) == Some((v1, t1))
    ensures HandRoutes(prefix, preload, [m0, m1]) ==
      [RouteOf("USE", prefix, preload),
       RouteOf(v0, Namer.FixURI(prefix, Namer.Namer(m0.name), t0), m0.handler.value),
       RouteOf(v1, Namer.FixURI(prefix, Namer.Namer(m1.name), t1), m1.handler.value),
       CheckRoute]
  {
    var r0 := RouteOf(v0, Namer.FixURI(prefix, Namer.Namer(m0.name), t0), m0.handler.value);
    var r1 := RouteOf(v1, Namer.FixURI(prefix, Namer.Namer(m1.name), t1), m1.handler.value);
    VerbMethodRegistered(prefix, m0, v0, t0);
    VerbMethodRegistered(prefix, m1, v1, t1);
    MethodRoutesPair(prefix, m0, m1);
    HandRoutesUnfold(prefix, preload, [m0, m1]);
    FourRoutes(RouteOf("USE", prefix, preload), r0, r1, CheckRoute);
  }

  lemma MethodRoutesPair(prefix: string, m0: ControllerMethod, m1: ControllerMethod)
    ensures MethodRoutes(prefix, [m0, m1]) == MethodRoute(prefix, m0) + MethodRoute(prefix, m1)
  {
    var ms := [m0, m1];
    MethodRoutesSnoc(prefix, ms, 1);
    MethodRoutesSnoc(prefix, ms, 0);
    assert ms[..2] == ms && ms[..0] == [];
    assert MethodRoutes(prefix, ms[..0]) == [];
    assert [] + MethodRoute(prefix, ms[0]) == MethodRoute(prefix, m0);
    assert MethodRoutes(prefix, ms[..1]) == MethodRoute(prefix, m0);
    assert MethodRoutes(prefix, ms) == MethodRoutes(prefix, ms[..1]) + MethodRoute(prefix, m1);
  }

  lemma HandRoutesUnfold(prefix: string, preload: Action, ms: seq<ControllerMethod>)
    ensures HandRoutes(prefix, preload, ms) == [RouteOf("USE", prefix, preload)] + MethodRoutes(prefix, ms) + [CheckRoute]
  {
    RegisterOne("USE", prefix, preload);
  }

  lemma FourRoutes(u: Route, r0: Route, r1: Route, c: Route)
    ensures [u] + ([r0] + [r1]) + [c] == [u, r0, r1, c]
  {
  }

  /** The table such a controller registers under "/a", its preload passing requests on. */
  function ExampleRoutes(a: string, n: string, b1: string, b2: string): (rs: seq<Route>)
    ensures Dispatchable(rs)
  {
    [Route(false, true, false, false, false, "*", "/" + a, [], [], Continue),
     Route(true, false, false, false, false, "GET", "/" + a, [], [], Respond(b1)),
     Route(false, false, false, false, true, "POST", "/" + a + "/:" + n, [n], [Lit(a), Req], Respond(b2)),
     CheckRoute]
  }

  /** The example table is what registering the preload, the two routes and the health check gives. */
  lemma ExampleRegistered(a: string, n: string, b1: string, b2: string)
    requires LowerWord(a) && LowerWord(n)
    ensures ExampleRoutes(a, n, b1, b2) ==
      [RouteOf("USE", "/" + a, Continue), RouteOf("GET", "/" + a, Respond(b1)),
       RouteOf("POST", "/" + a + "/:" + n, Respond(b2)), CheckRoute]
  {
    PlainRoute("USE", a, Continue);
    PlainRoute("GET", a, Respond(b1));
    ParamRoute("POST", a, n, Respond(b2));
  }

  /** GET "/a": the preload passes the request on and the `Get` route answers it. */
  lemma ExampleGet(a: string, n: string, b1: string, b2: string, files: FileServer, x: Exchange)
    requires LowerWord(a) && LowerWord(n) && x.index == -1
    ensures var rs := ExampleRoutes(a, n, b1, b2);
      Dispatch(rs, "GET", "/" + a, files, x) == x.(index := 1, route := Some(rs[1]), values := [], body := b1)
  {
    var rs := ExampleRoutes(a, n, b1, b2);
    var path := "/" + a;
    assert HasPrefix(path, path);
    assert MatchRoute(rs[0], "GET", path) == (true, []);
    FirstMatch(rs, "GET", path, files, x, 0);
    var passed := x.(index := 0, route := None, values := []);
    assert MatchRoute(rs[1], "GET", path) == (true, []);
    FirstMatch(rs, "GET", path, files, passed, 1);
  }

  /** The pattern [Lit(a), Req] captures the segment after "/a". */
  lemma ParamCapture(a: string, v: string)
    requires LowerWord(a) && v != "" && '/' !in v
    ensures Match([Lit(a), Req], "/" + a + "/" + v) == Some([v])
  {
    var p := [Lit(a), Req];
    assert p[1..] == [Req] && [Req][1..] == [];
    assert Captures(p) == [Req];
    assert CapturesOk(p, [v]);
    assert Fill(p, [v]) == "/" + a + "/" + v;
    MatchFillExact(p, [v], "");
    assert Fill(p, [v]) + "" == Fill(p, [v]);
  }

  /**
   * POST "/a/v": the preload passes the request on, the GET route is
   * skipped, and the `PostParam` route answers it with `v` captured as `n`.
   */
  lemma ExamplePost(a: string, n: string, v: string, b1: string, b2: string, files: FileServer, x: Exchange)
    requires LowerWord(a) && LowerWord(n) && v != "" && '/' !in v && x.index == -1
    ensures var rs := ExampleRoutes(a, n, b1, b2);
      var r := Dispatch(rs, "POST", "/" + a + "/" + v, files, x);
      && r == x.(index := 2, route := Some(rs[2]), values := [v], body := b2)
      && Context.ParamValue(rs[2].params, r.values, n) == Some(v)
  {
    var rs := ExampleRoutes(a, n, b1, b2);
    var path := "/" + a + "/" + v;
    assert HasPrefix(path, "/" + a) by {
      assert path[..|"/" + a|] == "/" + a;
    }
    assert MatchRoute(rs[0], "POST", path) == (true, []);
    FirstMatch(rs, "POST", path, files, x, 0);
    var passed := x.(index := 0, route := None, values := []);
    assert !MethodEligible(rs[1], "POST");
    ParamCapture(a, v);
    assert MatchRoute(rs[2], "POST", path) == (true, [v]);
    FirstMatch(rs, "POST", path, files, passed, 2);
    Context.FirstIndexAt([n], n, 0);
  }

  /** A one-word method named after GET is a GET route at its controller's prefix. */
  lemma OneWordGetMethod(api: string, name: string)
    requires Paths.PlainName(api) && Namer.VerbWord(name) && ToLower(name) == "get"
    ensures VerbOf(Namer.Namer(name)) == Some(("GET", "get"))
    ensures Namer.FixURI("/" + api, Namer.Namer(name), "get") == "/" + api
  {
    Namer.NamerOneWord(name);
    Namer.RouteOneWord(api, name);
    assert HasPrefix("get", "get");
  }

  /** A method named `Get` under "/api" is a GET route at "/api". */
  lemma GetMethod(api: string, name: string)
    requires api == "api" && name == "Get"
    ensures VerbOf(Namer.Namer(name)) == Some(("GET", "get"))
    ensures Namer.FixURI("/" + api, Namer.Namer(name), "get") == "/" + api
  {
    Namer.UserInfoWords();
    assert Paths.PlainName(api);
    OneWordGetMethod(api, name);
  }

  /** A method named `PostParam` under "/api" is a POST route at "/api/:param". */
  lemma PostParamMethod(verb: string)
    requires verb == "Post"
    ensures VerbOf(Namer.Namer(verb + "Param")) == Some(("POST", "post"))
    ensures Namer.FixURI("/api", Namer.Namer(verb + "Param"), "post") == "/api/:param"
  {
    Namer.Verbs();
    Namer.NamerVerbParam(verb);
    Namer.PostParamRoute(verb);
    PostParamVerb();
  }

  lemma PostParamVerb()
    ensures VerbOf("post" + "/:param") == Some(("POST", "post"))
  {
    var s := "post/:param";
    assert "post" + "/:param" == s;
    assert !HasPrefix(s, "get") by {
      assert s[..3][0] != "get"[0];
    }
    assert HasPrefix(s, "post");
  }

  /**
   * A controller at "/a" whose first method routes as GET at "/a" and whose
   * second routes as POST at "/a/:n" registers the example table.
   */
  lemma ControllerTable(a: string, n: string, get: string, post: string, b1: string, b2: string)
    requires LowerWord(a) && LowerWord(n)
    requires VerbOf(Namer.Namer(get)) == Some(("GET", "get"))
    requires Namer.FixURI("/" + a, Namer.Namer(get), "get") == "/" + a
    requires VerbOf(Namer.Namer(post)) == Some(("POST", "post"))
    requires Namer.FixURI("/" + a, Namer.Namer(post), "post") == "/" + a + "/:" + n
    ensures HandRoutes("/" + a, Continue,
              [ControllerMethod(get, Some(Respond(b1))), ControllerMethod(post, Some(Respond(b2)))])
            == ExampleRoutes(a, n, b1, b2)
  {
    TwoMethodRoutes("/" + a, Continue, ControllerMethod(get, Some(Respond(b1))),
      ControllerMethod(post, Some(Respond(b2))), "GET", "get", "POST", "post");
    ExampleRegistered(a, n, b1, b2);
  }

  /** The prefix word "api" and the parameter word "param", spelled out. */
  lemma ApiWords(api: string)
    requires api == "api"
    ensures "/" + api == "/api" && "/" + api + "/:" + "param" == "/api/:param"
    ensures LowerWord(api) && LowerWord("param")
  {
  }

  /**
   * The documented controller: under "/api", `Get` answering `b1` and
   * `PostParam` answering `b2` register the example table.
   */
  lemma ApiControllerRoutes(api: string, get: string, post: string, b1: string, b2: string)
    requires api == "api" && get == "Get" && post == "Post"
    ensures HandRoutes("/" + api, Continue,
              [ControllerMethod(get, Some(Respond(b1))), ControllerMethod(post + "Param", Some(Respond(b2)))])
            == ExampleRoutes(api, "param", b1, b2)
  {
    GetMethod(api, get);
    PostParamMethod(post);
    ApiWords(api);
    ControllerTable(api, "param", get, post + "Param", b1, b2);
  }

  /** GET "/api" runs `Get`; POST "/api/42" runs `PostParam` with "42" as its "param". */
  lemma ApiControllerRequests(b1: string, b2: string, files: FileServer, x: Exchange)
    requires x.index == -1
    ensures var rs := ExampleRoutes("api", "param", b1, b2);
      && Dispatch(rs, "GET", "/api", files, x).body == b1
      && var r := Dispatch(rs, "POST", "/api/42", files, x);
         r.body == b2 && r.route.Some? && Context.ParamValue(r.route.value.params, r.values, "param") == Some("42")
  {
    assert LowerWord("api") && LowerWord("param");
    ExampleGet("api", "param", b1, b2, files, x);
    ExamplePost("api", "param", "42", b1, b2, files, x);
    assert "/" + "api" == "/api";
    assert "/" + "api" + "/" + "42" == "/api/42";
  }

  // ---------------------------------------------------------------------
  // The application

  class Core {
    var routes: seq<Route>

    /** New: an empty route table. */
    constructor ()
      ensures routes == []
    {
      routes := [];
    }

    predicate Valid()
      reads this
    {
      Dispatchable(routes)
    }

    /**
     * pushMethod: one route per handler, appended in order; registering no
     * handler is fatal and registers nothing.  Callers always pass a method.
     */
    method PushMethod(verb: string, path: string, handlers: seq<Action>) returns (fatal: bool)
      requires Valid() && verb != ""
      modifies this
      ensures Valid()
      ensures fatal <==> |handlers| == 0
      ensures routes == old(routes) + Register(verb, path, handlers)
    {
      if |handlers| == 0 {
        return true;
      }
      fatal := false;
      var template := NewRoute(verb, path, handlers[0]);
      RouteOfHandler(verb, path, handlers[0], handlers[0]);
      AppendCopies(template, handlers);
      RegisterFrom(verb, path, handlers[0], handlers);
    }

    /** The loop of pushMethod: one copy of the route per handler, each carrying its handler. */
    method AppendCopies(template: Route, handlers: seq<Action>)
      requires Valid() && template.verb != ""
      modifies this
      ensures Valid()
      ensures routes == old(routes) + WithHandlers(template, handlers)
    {
      for i := 0 to |handlers|
        invariant routes == old(routes) + WithHandlers(template, handlers[..i])
        invariant Valid()
      {
        var route := template.(handler := handlers[i]);
        WithHandlersSnoc(template, handlers, i);
        DispatchableSnoc(routes, route);
        ghost var before := WithHandlers(template, handlers[..i]);
        routes := routes + [route];
        AppendAssoc(old(routes), before, [route]);
      }
      TakeAll(handlers);
    }

    /**
     * buildHands: runs the controller's Init, registers its preload as a
     * middleware at its prefix, one route per verb-named handler method, and
     * the health check.
     */
    method BuildHands(hand: Handler.Handler, preload: Action, methods: seq<ControllerMethod>)
      requires Valid()
      modifies this
      ensures Valid()
      ensures routes == old(routes) + HandRoutes(hand.prefix, preload, methods)
    {
      hand.Init();
      var prefix := hand.Prefix();
      ghost var start := routes;
      var _ := PushMethod("USE", prefix, [preload]);
      ghost var a := Register("USE", prefix, [preload]);
      RegisterMethods(prefix, methods);
      ghost var m := MethodRoutes(prefix, methods);
      PushCheck();
      ghost var c := [CheckRoute];
      AppendAssoc3(start, a, m, c);
    }

    /** The health check buildHands adds last: GET /check answers "ok". */
    method PushCheck()
      requires Valid()
      modifies this
      ensures Valid()
      ensures routes == old(routes) + [CheckRoute]
    {
      var _ := PushMethod("GET", CheckPath, [Respond("ok")]);
      CheckRouteRegistered();
    }

    /** The loop of buildHands over the controller's methods, in reflection order. */
    method RegisterMethods(prefix: string, methods: seq<ControllerMethod>)
      requires Valid()
      modifies this
      ensures Valid()
      ensures routes == old(routes) + MethodRoutes(prefix, methods)
    {
      for i := 0 to |methods|
        invariant Valid()
        invariant routes == old(routes) + MethodRoutes(prefix, methods[..i])
      {
        MethodRoutesSnoc(prefix, methods, i);
        ghost var before := MethodRoutes(prefix, methods[..i]);
        RegisterMethod(prefix, methods[i]);
        AppendAssoc(old(routes), before, MethodRoute(prefix, methods[i]));
      }
      TakeAll(methods);
    }

    /** One iteration of buildHands' loop: a method named after a verb that is a handler becomes a route. */
    method RegisterMethod(prefix: string, m: ControllerMethod)
      requires Valid()
      modifies this
      ensures Valid()
      ensures routes == old(routes) + MethodRoute(prefix, m)
    {
      var name := Namer.ToNamer(m.name);
      RegisterNamed(prefix, name, m.handler);
    }

    /** The switch of buildHands on a route name. */
    method RegisterNamed(prefix: string, name: string, handler: Option<Action>)
      requires Valid()
      modifies this
      ensures Valid()
      ensures routes == old(routes) + NamedRoute(prefix, name, handler)
    {
      var tagged := VerbOf(name);
      if tagged.Some? && handler.Some? {
        var uri := Namer.FixURI(prefix, name, tagged.value.1);
        var _ := PushMethod(tagged.value.0, uri, [handler.value]);
      }
    }

    /**
     * Use: registers middleware from its arguments as ScanUse describes: the
     * handlers at the last path given, unless a controller was among them.
     */
    method Use(args: seq<UseArg>) returns (fatal: bool)
      requires Valid()
      modifies this
      ensures Valid()
      ensures var items := old(Items(args));
        routes == old(routes) + UseRoutes(items).0 && fatal == UseRoutes(items).1
    {
      ghost var items := Items(args);
      var path, handlers, skip;
      ghost var added;
      path, handlers, skip, fatal, added := ScanArgs(args, items);
      if fatal || skip {
        return;
      }
      fatal := PushMethod("USE", path, handlers);
      assert routes == old(routes) + added + Register("USE", path, handlers);
      AppendAssoc(old(routes), added, Register("USE", path, handlers));
    }

    /** The loop of Use over its arguments, up to the first fatal one. */
    method ScanArgs(args: seq<UseArg>, ghost items: seq<UseItem>)
      returns (path: string, handlers: seq<Action>, skip: bool, fatal: bool, ghost added: seq<Route>)
      requires Valid() && items == Items(args)
      modifies this
      ensures Valid()
      ensures routes == old(routes) + added
      ensures ScanUse(items) == UseScan(path, handlers, skip, added, fatal)
    {
      path, handlers, skip, fatal, added := "", [], false, false, [];
      for i := 0 to |args|
        invariant Valid() && items == Items(args)
        invariant routes == old(routes) + added && !fatal
        invariant ScanUse(items[..i]) == UseScan(path, handlers, skip, added, false)
      {
        ScanUseSnoc(items, i);
        ghost var delta;
        ghost var before := added;
        path, handlers, skip, fatal, delta := ScanArg(args[i], items[i], path, handlers, skip, added);
        AppendAssoc(old(routes), before, delta);
        added := added + delta;
        assert forall o | o in Hands(args) :: unchanged(o);
        if fatal {
          ScanUseFatal(items, i + 1);
          return;
        }
      }
      TakeAll(items);
    }

    /** One argument of Use, as UseStep describes it. */
    method ScanArg(a: UseArg, ghost item: UseItem, path: string, handlers: seq<Action>, skip: bool, ghost added: seq<Route>)
      returns (path': string, handlers': seq<Action>, skip': bool, fatal: bool, ghost delta: seq<Route>)
      requires Valid() && item == ItemOf(a)
      modifies this
      ensures Valid()
      ensures routes == old(routes) + delta
      ensures UseStep(UseScan(path, handlers, skip, added, false), item) == UseScan(path', handlers', skip', added + delta, fatal)
    {
      path', handlers', skip', fatal, delta := path, handlers, skip, false, [];
      match a {
        case PathArg(p) => path' := p;
        case FuncArg(h) => handlers' := handlers + [h];
        case HandleArg(hand, preload, methods) =>
          skip' := true;
          delta := AddController(hand, preload, methods, UseScan(path, handlers, skip, added, false), item);
        case OtherArg => fatal := true;
      }
      assert added + [] == added;
    }

    /** Use's step for a controller: its routes are registered at once. */
    method AddController(hand: Handler.Handler, preload: Action, methods: seq<ControllerMethod>, ghost st: UseScan, ghost item: UseItem)
      returns (ghost delta: seq<Route>)
      requires Valid() && !st.fatal && item == HandleItem(hand.prefix, preload, methods)
      modifies this
      ensures Valid()
      ensures routes == old(routes) + delta
      ensures UseStep(st, item) == st.(skip := true, added := st.added + delta)
    {
      delta := HandRoutes(hand.prefix, preload, methods);
      StepHandle(st, item, delta);
      BuildHands(hand, preload, methods);
    }

    /**
     * regStatic (Static): appends one middleware route that serves files
     * under the normalised prefix.
     */
    method RegStatic(prefix: string, root: string, config: Option<StaticConfig>)
      requires Valid()
      modifies this
      ensures Valid()
      ensures routes == old(routes) + [StaticRoute(prefix, root, config)]
    {
      var p, wildcard, isSlash := NormaliseStatic(prefix);
      var r := if |root| == 0 then "." else root;
      if |r| > 0 && r[|r| - 1] == '/' {
        r := r[..|r| - 1];
      }
      var stripper := if isSlash then 0 else |p|;
      var indexNames := ["index.html"];
      var compress, byteRange, browse := false, false, false;
      if config.Some? {
        compress := config.value.compress;
        byteRange := config.value.byteRange;
        browse := config.value.browse;
        if config.value.index != "" {
          indexNames := [config.value.index];
        }
      }
      var site := StaticSite(r, p, wildcard, stripper, compress, byteRange, browse, indexNames);
      var route := Route(false, true, false, isSlash, false, "*", p, [], [], Static(site));
      assert r == StaticDir(root);
      assert route == StaticRoute(prefix, root, config);
      DispatchableSnoc(routes, route);
      routes := routes + [route];
    }

    /** The first part of regStatic: the prefix it stores, the wildcard flag and whether the prefix is the root. */
    static method NormaliseStatic(prefix: string) returns (p: string, wildcard: bool, isSlash: bool)
      ensures (p, wildcard, isSlash) == StaticPath(prefix)
    {
      p := if prefix == "" then "/" else prefix;
      if p[0] != '/' && p[0] != '*' {
        p := "/" + p;
      }
      wildcard := false;
      if p == "*" || p == "/*" {
        wildcard := true;
        p := "/";
      }
      p := ToLower(p);
      isSlash := p == "/";
      if '*' in p {
        wildcard := true;
        p := Split(p, '*')[0];
      }
    }

    /** The route pushMethod builds for one handler. */
    static method NewRoute(verb: string, path: string, h: Action) returns (route: Route)
      ensures route == RouteOf(verb, path, h)
    {
      var p := if path == "" then "/" else path;
      if p[0] != '/' {
        p := "/" + p;
      }
      var original := p;
      assert original == Rooted(path);
      p := ToLower(p);
      if |p| > 1 {
        p := TrimRight(p, '/');
      }
      assert p == Canonical(original);
      var isGet := verb == "GET";
      var isMiddleware := verb == "USE";
      var m := verb;
      if isMiddleware || verb == "ALL" {
        m := "*";
      }
      var isStar := p == "*" || p == "/*";
      if isMiddleware && p == "/" {
        isStar := true;
      }
      var isSlash := p == "/";
      var isRegex := false;
      var params := GetParams(original);
      var matcher := [];
      if |params| > 0 {
        var _, compiled := GetRegex(p);
        isRegex := true;
        matcher := compiled;
      }
      assert isStar == (p == "*" || p == "/*" || (isMiddleware && p == "/"));
      assert m == (if isMiddleware || verb == "ALL" then "*" else verb);
      assert isRegex == (|params| > 0) && matcher == (if |params| > 0 then Compile(p) else []);
      route := Route(isGet, isMiddleware, isStar, isSlash, isRegex, m, p, params, matcher, h);
      TemplateOf(verb, path, original, p, params);
    }

    /**
     * nextRoute: scans the table from the context's cursor, as Dispatch
     * describes; the context's method and path stay as they were.
     */
    method NextRoute(c: Context.Ctx, files: FileServer)
      requires Valid() && c.fctx != null && c.index >= -1
      modifies c, c.fctx
      ensures c.fctx == old(c.fctx) && c.verb == old(c.verb) && c.path == old(c.path)
      ensures Snapshot(c) == Dispatch(routes, c.verb, c.path, files, old(Snapshot(c)))
    {
      var rlen := |routes| - 1;
      while c.index < rlen
        invariant c.fctx == old(c.fctx) && c.verb == old(c.verb) && c.path == old(c.path)
        invariant c.index >= -1
        invariant Dispatch(routes, c.verb, c.path, files, Snapshot(c)) ==
                  Dispatch(routes, c.verb, c.path, files, old(Snapshot(c)))
        decreases rlen - c.index
      {
        var more := ServeNext(c, files);
        if !more {
          return;
        }
      }
      if |c.fctx.body| == 0 {
        c.SendStatus(404);
      }
    }

    /** The body of nextRoute's loop, with the matched route's handler run: one Step. */
    method ServeNext(c: Context.Ctx, files: FileServer) returns (more: bool)
      requires Valid() && c.fctx != null && -1 <= c.index < |routes| - 1
      modifies c, c.fctx
      ensures c.fctx == old(c.fctx) && c.verb == old(c.verb) && c.path == old(c.path)
      ensures (Snapshot(c), more) == Step(routes, c.verb, c.path, files, old(Snapshot(c)))
    {
      c.index := c.index + 1;
      var route := routes[c.index];
      var m := MatchRoute(route, c.verb, c.path);
      more := true;
      if m.0 {
        c.route := Some(route);
        c.values := m.1;
        match route.handler {
          case Respond(b) =>
            assert Concat([b]) == b by { assert [b][..0] == []; }
            c.Send([b]);
            more := false;
          case Continue =>
            more := c.Next(None);
          case ContinueErr(e) =>
            more := c.Next(Some(e));
          case Static(site) =>
            more := ServeStatic(c, site, files);
        }
      }
    }

    /** The file server's handler: serve the file, or reset and call Next. */
    static method ServeStatic(c: Context.Ctx, site: StaticSite, files: FileServer) returns (more: bool)
      requires c.fctx != null
      modifies c, c.fctx
      ensures c.fctx == old(c.fctx) && c.verb == old(c.verb) && c.path == old(c.path)
      ensures (Snapshot(c), more) == StaticStep(c.verb, site, files, old(Snapshot(c)))
    {
      if c.verb == "GET" || c.verb == "HEAD" {
        if site.wildcard {
          c.fctx.uri := site.prefix;
        }
        var served := files(site, c.fctx.uri);
        c.fctx.status := served.0;
        c.fctx.body := served.1;
        if served.0 != 404 && served.0 != 403 {
          return false;
        }
        c.fctx.ResetResponse();
      }
      more := c.Next(None);
    }

    /**
     * handler: takes a context from the pool, normalises the request path as
     * registered paths are, dispatches, and returns the context to the pool.
     */
    method Handle(fctx: Context.RequestCtx, pool: Context.Pool, files: FileServer)
      requires Valid() && pool.Valid()
      modifies pool, pool.free, fctx
      ensures pool.Valid()
      // the context taken from the pool (or made afresh) goes back to it, released
      ensures |pool.free| == if |old(pool.free)| > 0 then |old(pool.free)| else 1
      ensures pool.free[..|pool.free| - 1]
              == if |old(pool.free)| > 0 then old(pool.free)[..|old(pool.free)| - 1] else []
      ensures pool.free[|pool.free| - 1].Released()
      ensures var r := Dispatch(routes, fctx.reqMethod, Canonical(old(fctx.uri)), files,
                Exchange(-1, None, [], None, old(fctx.uri), old(fctx.status), old(fctx.body),
                  old(fctx.headers), old(fctx.cookies)));
        fctx.uri == r.uri && fctx.status == r.status && fctx.body == r.body
        && fctx.headers == r.headers && fctx.cookies == r.cookies
    {
      var c := pool.Assign(fctx);
      ghost var start := Snapshot(c);
      assert start == Exchange(-1, None, [], None, fctx.uri, fctx.status, fctx.body, fctx.headers, fctx.cookies);
      DispatchRequest(c, files);
      pool.Release(c);
    }

    /** The part of handler between assignCtx and releaseCtx: normalise the path, then nextRoute. */
    method DispatchRequest(c: Context.Ctx, files: FileServer)
      requires Valid() && c.fctx != null && c.index == -1
      modifies c, c.fctx
      ensures c.fctx == old(c.fctx) && c.verb == old(c.verb)
      ensures Snapshot(c) == Dispatch(routes, c.verb, Canonical(old(c.path)), files, old(Snapshot(c)))
    {
      var p := ToLower(c.path);
      if |p| > 1 {
        p := TrimRight(p, '/');
      }
      c.path := p;
      NextRoute(c, files);
    }
  }
}
