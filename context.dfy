/**
 * context.go: the per-request context.  A context is taken from a pool when
 * a request arrives, carries the scan cursor over the route table, the
 * matched route and its parameter values, and gives handlers access to the
 * request and the response; it is cleared and returned to the pool when the
 * request is done.
 */
module Context {
  import opened Wrappers
  import opened Strs
  import opened Utils
  import opened Router

  // ---------------------------------------------------------------------
  // The request and response of one exchange (the server library's request context)

  /** SameSite modes of a response cookie. */
  datatype SameSite = SameSiteDisabled | SameSiteLax | SameSiteStrict | SameSiteNone

  /** A cookie as the application describes it. */
  datatype Cookie = Cookie(
    name: string, value: string, path: string, domain: string, expires: int,
    secure: bool, httpOnly: bool, sameSite: string)

  /** A cookie as it is set on the response. */
  datatype ResponseCookie = ResponseCookie(
    key: string, value: string, path: string, domain: string, expire: int,
    secure: bool, httpOnly: bool, sameSite: SameSite)

  class RequestCtx {
    const reqMethod: string
    const host: string
    const reqHeaders: map<string, string>
    var uri: string
    var status: int
    var body: string
    var headers: map<string, string>
    var cookies: map<string, ResponseCookie>

    /** A request as the server hands it over: the response is still empty, with status 200. */
    constructor (reqMethod: string, uri: string, host: string, reqHeaders: map<string, string>)
      ensures this.reqMethod == reqMethod && this.uri == uri && this.host == host && this.reqHeaders == reqHeaders
      ensures status == 200 && body == "" && headers == map[] && cookies == map[]
    {
      this.reqMethod, this.uri, this.host, this.reqHeaders := reqMethod, uri, host, reqHeaders;
      status, body, headers, cookies := 200, "", map[], map[];
    }

    /** Response.Reset: the response goes back to an empty 200. */
    method ResetResponse()
      modifies this
      ensures status == 200 && body == "" && headers == map[] && cookies == map[]
      ensures uri == old(uri)
    {
      status, body, headers, cookies := 200, "", map[], map[];
    }
  }

  // ---------------------------------------------------------------------
  // The context

  class Ctx {
    var fctx: RequestCtx?
    var route: Option<Route>
    var index: int
    var verb: string
    var path: string
    var values: seq<string>
    var err: Option<string>

    /** A new context, as the pool creates one: every field at its zero value. */
    constructor ()
      ensures fctx == null && route.None? && index == 0 && verb == "" && path == ""
      ensures values == [] && err.None?
    {
      fctx, route, index, verb, path, values, err := null, None, 0, "", "", [], None;
    }

    /** A context that is back in the pool holds no request, no match and no error. */
    predicate Released()
      reads this
    {
      fctx == null && route.None? && values == [] && err.None?
    }

    /**
     * Method: with an override, its upper-cased form becomes the request
     * method if it is one of the nine methods, and any other override is
     * fatal (`ok` is false and nothing changes); the result is the method.
     */
    method Method(override: Option<string>) returns (m: string, ok: bool)
      modifies this
      ensures ok <==> override.None? || ToUpper(override.value) in MethodINT
      ensures ok && override.Some? ==> verb == ToUpper(override.value)
      ensures !ok || override.None? ==> verb == old(verb)
      ensures m == verb
      ensures fctx == old(fctx) && route == old(route) && index == old(index) && path == old(path)
      ensures values == old(values) && err == old(err)
    {
      ok := true;
      if override.Some? {
        var upper := ToUpper(override.value);
        AcceptedMethodIff(upper);
        if !AcceptedMethod(upper) {
          ok := false;
          m := verb;
          return;
        }
        verb := upper;
      }
      m := verb;
    }

    /** Get: a request header; "referrer" reads the "referer" header; a missing header reads as "". */
    function Get(k: string): (v: string)
      requires fctx != null
      reads this, fctx
      ensures k == "referrer" ==> v == (if "referer" in fctx.reqHeaders then fctx.reqHeaders["referer"] else "")
      ensures k != "referrer" && k in fctx.reqHeaders ==> v == fctx.reqHeaders[k]
      ensures k != "referrer" && k !in fctx.reqHeaders ==> v == ""
    {
      var key := if k == "referrer" then "referer" else k;
      if key in fctx.reqHeaders then fctx.reqHeaders[key] else ""
    }

    /** Redirect: a Location header and the status, 302 unless one is given. */
    method Redirect(location: string, code: Option<int>)
      requires fctx != null
      modifies fctx
      ensures fctx.headers == old(fctx.headers)["Location" := location]
      ensures fctx.status == (if code.Some? then code.value else 302)
      ensures fctx.body == old(fctx.body) && fctx.cookies == old(fctx.cookies) && fctx.uri == old(fctx.uri)
    {
      fctx.headers := fctx.headers["Location" := location];
      fctx.status := if code.Some? then code.value else 302;
    }

    /** SendStatus: the status always changes; an empty body gets the status's reason phrase. */
    method SendStatus(code: int)
      requires fctx != null
      modifies fctx
      ensures fctx.status == code
      ensures fctx.body == if old(fctx.body) == "" then StatusMessage(code) else old(fctx.body)
      ensures fctx.headers == old(fctx.headers) && fctx.cookies == old(fctx.cookies) && fctx.uri == old(fctx.uri)
    {
      fctx.status := code;
      if |fctx.body| == 0 {
        fctx.body := StatusMessage(code);
      }
    }

    /** Write: appends every argument, in order, to the body. */
    method Write(bodies: seq<string>)
      requires fctx != null
      modifies fctx
      ensures fctx.body == old(fctx.body) + Concat(bodies)
      ensures fctx.status == old(fctx.status) && fctx.headers == old(fctx.headers)
      ensures fctx.cookies == old(fctx.cookies) && fctx.uri == old(fctx.uri)
    {
      for i := 0 to |bodies|
        invariant fctx.body == old(fctx.body) + Concat(bodies[..i])
        invariant fctx.status == old(fctx.status) && fctx.headers == old(fctx.headers)
        invariant fctx.cookies == old(fctx.cookies) && fctx.uri == old(fctx.uri)
      {
        assert bodies[..i + 1][..i] == bodies[..i];
        fctx.body := fctx.body + bodies[i];
      }
      assert bodies[..|bodies|] == bodies;
    }

    /** Send: with arguments, the body becomes their concatenation; with none, it is left alone. */
    method Send(bodies: seq<string>)
      requires fctx != null
      modifies fctx
      ensures fctx.body == if |bodies| > 0 then Concat(bodies) else old(fctx.body)
      ensures fctx.status == old(fctx.status) && fctx.headers == old(fctx.headers)
      ensures fctx.cookies == old(fctx.cookies) && fctx.uri == old(fctx.uri)
    {
      if |bodies| > 0 {
        fctx.body := "";
      }
      Write(bodies);
    }

    /**
     * Params: the value of the first route parameter named `k`, or "" when
     * there is none.  `None` stands for the source's index-out-of-range
     * panic, when the route names more parameters than the match captured.
     */
    function Params(k: string): Option<string>
      requires route.Some?
      reads this
    {
      ParamValue(route.value.params, values, k)
    }

    /**
     * Next: forgets the matched route and its values; with an error, records
     * it and stops (`resume` is false); without one, the scan of the route
     * table goes on from the unchanged cursor (`resume` is true).
     */
    method Next(e: Option<string>) returns (resume: bool)
      modifies this
      ensures route.None? && values == []
      ensures resume <==> e.None?
      ensures err == (if e.Some? then e else old(err))
      ensures fctx == old(fctx) && index == old(index) && verb == old(verb) && path == old(path)
    {
      route := None;
      values := [];
      if e.Some? {
        err := e;
        return false;
      }
      return true;
    }

    /** IPs: the comma-separated addresses of the X-Forwarded-For header, each trimmed of spaces. */
    method IPs() returns (ips: seq<string>)
      requires fctx != null
      ensures ips == TrimAll(Split(Get("X-Forwarded-For"), ','))
    {
      ips := Split(Get("X-Forwarded-For"), ',');
      ghost var parts := ips;
      for i := 0 to |ips|
        invariant |ips| == |parts|
        invariant forall j :: 0 <= j < i ==> ips[j] == TrimSpace(parts[j])
        invariant forall j :: i <= j < |ips| ==> ips[j] == parts[j]
      {
        ips := ips[i := TrimSpace(ips[i])];
      }
    }

    /** Cookie: sets the cookie on the response, replacing one with the same name. */
    method SetCookie(cookie: Cookie)
      requires fctx != null
      modifies fctx
      ensures fctx.cookies == old(fctx.cookies)[cookie.name := ResponseCookieOf(cookie)]
      ensures fctx.status == old(fctx.status) && fctx.body == old(fctx.body)
      ensures fctx.headers == old(fctx.headers) && fctx.uri == old(fctx.uri)
    {
      var mode := SameSiteDisabled;
      var secure := cookie.secure;
      if cookie.secure {
        mode := SameSiteNone;
      }
      var s := ToLower(cookie.sameSite);
      if s == "lax" {
        mode := SameSiteLax;
      } else if s == "strict" {
        mode := SameSiteStrict;
      } else if s == "none" {
        mode := SameSiteNone;
        secure := true;
      } else {
        mode := SameSiteDisabled;
      }
      var rc := ResponseCookie(cookie.name, cookie.value, cookie.path, cookie.domain, cookie.expires,
        secure, cookie.httpOnly, mode);
      fctx.cookies := fctx.cookies[cookie.name := rc];
    }
  }

  function TrimAll(parts: seq<string>): seq<string>
  {
    seq(|parts|, j requires 0 <= j < |parts| => TrimSpace(parts[j]))
  }

  /** The cookie the response carries: the SameSite mode follows the attribute alone. */
  function ResponseCookieOf(c: Cookie): ResponseCookie
  {
    var s := ToLower(c.sameSite);
    var mode :=
      if s == "lax" then SameSiteLax
      else if s == "strict" then SameSiteStrict
      else if s == "none" then SameSiteNone
      else SameSiteDisabled;
    ResponseCookie(c.name, c.value, c.path, c.domain, c.expires, c.secure || s == "none", c.httpOnly, mode)
  }

  /**
   * The SameSite decision table: "none" forces a secure cookie, and a secure
   * cookie without a recognised attribute ends up with SameSite disabled, the
   * "None" mode set for it being overridden.
   */
  lemma SameSiteTable(c: Cookie)
    ensures ResponseCookieOf(c).secure <==> c.secure || ToLower(c.sameSite) == "none"
    ensures ToLower(c.sameSite) == "lax" ==> ResponseCookieOf(c).sameSite == SameSiteLax
    ensures ToLower(c.sameSite) == "strict" ==> ResponseCookieOf(c).sameSite == SameSiteStrict
    ensures ToLower(c.sameSite) == "none" ==> ResponseCookieOf(c).sameSite == SameSiteNone
    ensures ToLower(c.sameSite) !in {"lax", "strict", "none"} ==> ResponseCookieOf(c).sameSite == SameSiteDisabled
    ensures ResponseCookieOf(c).key == c.name && ResponseCookieOf(c).value == c.value
  {
  }

  /** Both spellings of the referring page read the same header. */
  lemma ReferrerAlias(c: Ctx)
    requires c.fctx != null
    ensures c.Get("referrer") == c.Get("referer")
  {
  }

  /** The first position of `k` in `names`. */
  function FirstIndex(names: seq<string>, k: string): (r: Option<nat>)
    ensures r.Some? ==> r.value < |names| && names[r.value] == k && k !in names[..r.value]
    ensures r.None? ==> k !in names
  {
    if |names| == 0 then None
    else if names[0] == k then Some(0)
    else match FirstIndex(names[1..], k)
      case None => None
      case Some(i) => assert names[..i + 1] == [names[0]] + names[1..][..i]; Some(i + 1)
  }

  /** The lookup of Params over the route's names and the captured values. */
  function ParamValue(names: seq<string>, values: seq<string>, k: string): Option<string>
  {
    match FirstIndex(names, k)
    case None => Some("")
    case Some(i) => if i < |values| then Some(values[i]) else None
  }

  /** A name that does not occur before position `i` is first found at `i`. */
  lemma {:induction false} FirstIndexAt(names: seq<string>, k: string, i: nat)
    requires i < |names| && names[i] == k && k !in names[..i]
    ensures FirstIndex(names, k) == Some(i)
  {
    if i > 0 {
      assert names[0] == names[..i][0];
      assert names[1..][..i - 1] == names[1..i];
      assert names[..i] == [names[0]] + names[1..i];
      FirstIndexAt(names[1..], k, i - 1);
    }
  }

  /** With as many values as names, the lookup never fails, and finds the value at the first name `k`. */
  lemma ParamValueAligned(names: seq<string>, values: seq<string>, k: string)
    requires |values| == |names|
    ensures ParamValue(names, values, k).Some?
    ensures k !in names ==> ParamValue(names, values, k) == Some("")
    ensures forall i :: 0 <= i < |names| && names[i] == k && k !in names[..i] ==>
      ParamValue(names, values, k) == Some(values[i])
  {
    forall i | 0 <= i < |names| && names[i] == k && k !in names[..i]
      ensures ParamValue(names, values, k) == Some(values[i])
    {
      FirstIndexAt(names, k, i);
    }
  }

  /** With fewer values than names, asking for a name past the last value fails. */
  lemma ParamValueShort(names: seq<string>, values: seq<string>, i: nat)
    requires |values| <= i < |names| && names[i] !in names[..i]
    ensures ParamValue(names, values, names[i]).None?
  {
    FirstIndexAt(names, names[i], i);
  }

  // ---------------------------------------------------------------------
  // The pool

  /** The context pool, kept sequentially as a list of free contexts. */
  class Pool {
    var free: seq<Ctx>

    constructor ()
      ensures free == []
    {
      free := [];
    }

    /** Every pooled context has been released, and none is pooled twice. */
    predicate Valid()
      reads this, free
    {
      && (forall i :: 0 <= i < |free| ==> free[i].Released())
      && (forall i, j :: 0 <= i < j < |free| ==> free[i] != free[j])
    }

    /**
     * assignCtx: a pooled (or new) context, its cursor before the first
     * route and its method and path taken from the request.
     */
    method Assign(fctx: RequestCtx) returns (c: Ctx)
      requires Valid()
      modifies this, free
      ensures Valid()
      ensures c.index == -1 && c.path == fctx.uri && c.verb == fctx.reqMethod && c.fctx == fctx
      ensures c.route.None? && c.values == [] && c.err.None?
      ensures c !in free
      ensures if |old(free)| > 0 then c == old(free)[|old(free)| - 1] && free == old(free)[..|old(free)| - 1]
              else fresh(c) && free == old(free)
    {
      if |free| > 0 {
        c := free[|free| - 1];
        free := free[..|free| - 1];
        assert c.Released();
      } else {
        c := new Ctx();
      }
      c.index := -1;
      c.path := fctx.uri;
      c.verb := fctx.reqMethod;
      c.fctx := fctx;
    }

    /** releaseCtx: the context forgets its request, match and error and goes back to the pool. */
    method Release(c: Ctx)
      requires Valid() && c !in free
      modifies this, c
      ensures Valid() && free == old(free) + [c] && c.Released()
      ensures c.index == old(c.index) && c.verb == old(c.verb) && c.path == old(c.path)
    {
      c.route := None;
      c.values := [];
      c.fctx := null;
      c.err := None;
      free := free + [c];
    }
  }

  // ---------------------------------------------------------------------
  // Host names

  /** The label count an optional offset stands for: two unless one is given. */
  function Offset(offset: Option<nat>): nat
  {
    if offset.Some? then offset.value else 2
  }

  /** Subdomains: all but the last `o` labels of the host, or the whole host when it has fewer. */
  function Subdomains(host: string, offset: Option<nat>): string
  {
    var labels := Split(host, '.');
    var l := |labels| - Offset(offset);
    if l < 0 then Join(labels, ".") else Join(labels[..l], ".")
  }

  /** RootDomain: the last `o` labels of the host, or the whole host when it has fewer. */
  function RootDomain(host: string, offset: Option<nat>): string
  {
    var labels := Split(host, '.');
    var l := if |labels| - Offset(offset) < 0 then 0 else |labels| - Offset(offset);
    Join(labels[l..], ".")
  }

  /** Domain: the subdomain part below the first base the host ends with, or the whole host. */
  function Domain(host: string, bases: seq<string>): string
  {
    if |bases| == 0 then host
    else if HasSuffix(host, bases[0]) then Subdomains(host, Some(|Split(bases[0], '.')|))
    else Domain(host, bases[1..])
  }

  /** The subdomain part, a dot and the root domain give back the host. */
  lemma SubdomainsRootDomain(host: string, offset: Option<nat>)
    requires 1 <= Offset(offset) < |Split(host, '.')|
    ensures Subdomains(host, offset) + "." + RootDomain(host, offset) == host
  {
    var labels := Split(host, '.');
    var l := |labels| - Offset(offset);
    assert labels[..l] + labels[l..] == labels;
    JoinAppend(labels[..l], labels[l..], ".");
    JoinSplit(host, '.');
  }

  /** With no more labels than `o`, both give the whole host. */
  lemma ShortHost(host: string, offset: Option<nat>)
    requires |Split(host, '.')| < Offset(offset)
    ensures Subdomains(host, offset) == host && RootDomain(host, offset) == host
  {
    JoinSplit(host, '.');
    assert Split(host, '.')[0..] == Split(host, '.');
  }

  /** By default the root domain is the last two labels: "a.b.example.com" gives "a.b" and "example.com". */
  lemma DefaultOffset(host: string)
    requires |Split(host, '.')| >= 3
    ensures Subdomains(host, None) + "." + RootDomain(host, None) == host
    ensures |Split(RootDomain(host, None), '.')| == 2
  {
    SubdomainsRootDomain(host, None);
    var labels := Split(host, '.');
    var tail := labels[|labels| - 2..];
    SplitPieces(host, '.');
    assert forall i :: 0 <= i < |tail| ==> '.' !in tail[i];
    SplitJoin(tail, '.');
  }

  /** Domain uses the first base the host ends with; with none, it is the host itself. */
  lemma DomainFirstBase(host: string, bases: seq<string>, i: nat)
    requires i < |bases| && HasSuffix(host, bases[i])
    requires forall j :: 0 <= j < i ==> !HasSuffix(host, bases[j])
    ensures Domain(host, bases) == Subdomains(host, Some(|Split(bases[i], '.')|))
  {
    if i > 0 {
      DomainFirstBase(host, bases[1..], i - 1);
    }
  }

  lemma DomainNoBase(host: string, bases: seq<string>)
    requires forall j :: 0 <= j < |bases| ==> !HasSuffix(host, bases[j])
    ensures Domain(host, bases) == host
  {
    if |bases| > 0 {
      DomainNoBase(host, bases[1..]);
    }
  }

  /** IPs gives one address per comma of the header, plus one. */
  lemma IPsCount(header: string)
    ensures |TrimAll(Split(header, ','))| == Count(header, ',') + 1
  {
    SplitPieces(header, ',');
  }
}
