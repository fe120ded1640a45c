/**
 * router.go: a registered route and the decision whether it serves a
 * request.  The compiled regular expression of a route is modelled by its
 * segment pattern (module Pattern), matched by the backtracking matcher there.
 */
module Router {
  import opened Wrappers
  import opened Strs
  import opened Pattern

  /** The file-server settings a static route was registered with. */
  datatype StaticSite = StaticSite(
    root: string,        // directory, without a trailing '/'
    prefix: string,      // normalised URL prefix the route is stored under
    wildcard: bool,      // the prefix held a '*': every request is rewritten to the prefix
    stripper: nat,       // number of leading path characters the file server strips (Go counts bytes)
    compress: bool,
    byteRange: bool,
    browse: bool,
    indexNames: seq<string>)

  /**
   * What a route's handler does with the request.  Handlers are user code in
   * the framework; the model keeps the behaviours that matter to dispatch.
   */
  datatype Action =
    | Respond(body: string)     // replaces the response body (Send) and returns
    | Continue                  // calls Next(): the scan resumes after this route
    | ContinueErr(err: string)  // calls Next(err): records the error and stops
    | Static(site: StaticSite)  // the file-serving handler registered by Static

  /** A registered route. */
  datatype Route = Route(
    isGet: bool,             // registered with GET: also serves HEAD
    isMiddleware: bool,      // registered with USE
    isStar: bool,            // matches every path
    isSlash: bool,           // stored path is "/"
    isRegex: bool,           // the path declares parameters
    verb: string,            // upper-case method name, or "*" for USE/ALL
    path: string,            // normalised path
    params: seq<string>,     // parameter names, in order
    matcher: seq<Seg>,       // the compiled pattern of a parameterised path
    handler: Action)

  /** The method test of a non-middleware route (HEAD per section 4.3.2 of RFC 7231). */
  predicate MethodEligible(r: Route, verb: string)
    requires r.verb != "" || verb == ""
  {
    r.verb == verb || r.verb[0] == '*' || (r.isGet && |verb| == 4 && verb == "HEAD")
  }

  /**
   * matchRoute: whether the route serves the request method `verb` and `path`, and the
   * parameter values it captured.  A route method is never empty when the
   * request method is not (the source indexes its first byte).
   */
  function MatchRoute(r: Route, verb: string, path: string): (res: (bool, seq<string>))
    requires r.verb != "" || verb == ""
    ensures |res.1| > 0 ==> res.0 && !r.isMiddleware && r.isRegex && |r.params| > 0
  {
    if r.isMiddleware then
      if r.isStar || r.isSlash then (true, [])
      else if HasPrefix(path, r.path) then (true, [])
      else (false, [])
    else if MethodEligible(r, verb) then
      if r.isStar then (true, [])
      else if r.isSlash && path == "/" then (true, [])
      else if r.isRegex && Match(r.matcher, path).Some? then
        if |r.params| > 0 then
          var groups := Match(r.matcher, path).value;
          if |groups| > 0 then (true, groups) else (false, [])
        else (true, [])
      else if |r.path| == |path| && r.path == path then (true, [])
      else (false, [])
    else (false, [])
  }

  // ---------------------------------------------------------------------
  // Properties

  /** A middleware route ignores the method, matches by plain string prefix and yields no values. */
  lemma MiddlewareMatch(r: Route, m1: string, m2: string, path: string)
    requires r.isMiddleware
    requires r.verb != "" || (m1 == "" && m2 == "")
    ensures MatchRoute(r, m1, path) == MatchRoute(r, m2, path)
    ensures MatchRoute(r, m1, path).0 <==> r.isStar || r.isSlash || HasPrefix(path, r.path)
    ensures MatchRoute(r, m1, path).1 == []
  {
  }

  /** A route whose method does not fit the request never matches, whatever the path. */
  lemma IneligibleNeverMatches(r: Route, verb: string, path: string)
    requires !r.isMiddleware && (r.verb != "" || verb == "")
    requires !MethodEligible(r, verb)
    ensures !MatchRoute(r, verb, path).0
  {
  }

  /** A GET route answers HEAD exactly as it answers GET. */
  lemma HeadFollowsGet(r: Route, path: string)
    requires !r.isMiddleware && r.isGet && r.verb == "GET"
    ensures MatchRoute(r, "HEAD", path) == MatchRoute(r, "GET", path)
  {
    assert MethodEligible(r, "HEAD");
  }

  /** An eligible always-match route matches every path; an eligible slash route matches "/". */
  lemma StarAndSlash(r: Route, verb: string, path: string)
    requires !r.isMiddleware && (r.verb != "" || verb == "") && MethodEligible(r, verb)
    ensures r.isStar ==> MatchRoute(r, verb, path) == (true, [])
    ensures r.isSlash && path == "/" ==> MatchRoute(r, verb, path) == (true, [])
  {
  }

  /**
   * A parameterised route whose pattern matches yields the captures of the
   * first match, and those captures rebuild the request path.
   */
  lemma PatternValues(r: Route, verb: string, path: string)
    requires !r.isMiddleware && (r.verb != "" || verb == "") && MethodEligible(r, verb)
    requires !r.isStar && !(r.isSlash && path == "/")
    requires r.isRegex && |r.params| > 0 && Groups(r.matcher) > 0
    requires Match(r.matcher, path).Some?
    ensures MatchRoute(r, verb, path) == (true, Match(r.matcher, path).value)
    ensures var vals := MatchRoute(r, verb, path).1;
      CapturesOk(r.matcher, vals) && (path == Fill(r.matcher, vals) || path == Fill(r.matcher, vals) + "/")
  {
    MatchSound(r.matcher, path);
  }

  /** Conversely, any path the pattern describes is served, with a trailing '/' or without. */
  lemma PatternServes(r: Route, verb: string, c: seq<string>, trailing: bool)
    requires !r.isMiddleware && (r.verb != "" || verb == "") && MethodEligible(r, verb)
    requires r.isRegex && CapturesOk(r.matcher, c) && (|r.params| == 0 || Groups(r.matcher) > 0)
    ensures MatchRoute(r, verb, Fill(r.matcher, c) + (if trailing then "/" else "")).0
  {
    var path := Fill(r.matcher, c) + (if trailing then "/" else "");
    if !trailing {
      assert path == Fill(r.matcher, c);
    }
    MatchComplete(r.matcher, c, path);
    if !r.isStar && !(r.isSlash && path == "/") && |r.params| > 0 {
      MatchSound(r.matcher, path);
      assert |Match(r.matcher, path).value| == Groups(r.matcher);
      assert Groups(r.matcher) == |c|;
    }
  }

  /** Falling through every special case, a route matches exactly its stored path. */
  lemma ExactFallback(r: Route, verb: string, path: string)
    requires !r.isMiddleware && (r.verb != "" || verb == "") && MethodEligible(r, verb)
    requires !r.isStar && !(r.isSlash && path == "/")
    requires !(r.isRegex && Match(r.matcher, path).Some?)
    ensures MatchRoute(r, verb, path).0 <==> r.path == path
    ensures MatchRoute(r, verb, path).1 == []
  {
  }
}
