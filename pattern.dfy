/**
 * The path-pattern compiler of utils.go: `getParams` (the ordered parameter
 * names of a route path) and `getRegex` (the anchored pattern).  Go's regexp
 * engine is replaced by an explicit backtracking matcher over the compiled
 * segment kinds, with the engine's leftmost-first preferences: a required or
 * optional capture is lazy (`[^/]+?`), an optional group is tried before it is
 * skipped, and a wildcard (`.*`) is greedy and stops at a newline.
 */
module Pattern {
  import opened Wrappers
  import opened Strs

  /** One compiled path segment. */
  datatype Seg = Lit(text: string) | Req | Opt | Wild

  // ---------------------------------------------------------------------
  // getParams

  /** The replacer that deletes every ':' and '?' from a parameter segment. */
  const MarkReplacer: seq<(string, string)> := [(":", ""), ("?", "")]

  function StripMarks(s: string): string
  {
    Replace(s, MarkReplacer)
  }

  /** The names one segment contributes, in order. */
  function SegmentParams(s: string): seq<string>
  {
    if s == "" then []
    else (if s[0] == ':' then [StripMarks(s)] else []) + (if '*' in s then ["*"] else [])
  }

  /** The names a list of segments contributes, left to right. */
  function ParamsOf(segs: seq<string>): seq<string>
    decreases |segs|
  {
    if |segs| == 0 then [] else ParamsOf(segs[..|segs| - 1]) + SegmentParams(segs[|segs| - 1])
  }

  /** The value `getParams(path)` returns. */
  function ParamsSpec(path: string): seq<string>
  {
    if |path| < 1 then [] else ParamsOf(Split(path, '/'))
  }

  /** getParams: scans the '/'-separated segments left to right. */
  method GetParams(path: string) returns (params: seq<string>)
    ensures params == ParamsSpec(path)
    ensures forall k :: 0 <= k < |params| ==> ':' !in params[k] && '?' !in params[k]
  {
    params := [];
    if |path| < 1 {
      return;
    }
    var segments := Split(path, '/');
    for i := 0 to |segments|
      invariant params == ParamsOf(segments[..i])
      invariant forall k :: 0 <= k < |params| ==> ':' !in params[k] && '?' !in params[k]
    {
      var names := SegmentNames(segments[i]);
      ParamsOfSnoc(segments, i);
      params := params + names;
    }
    assert segments[..|segments|] == segments;
  }

  /** The body of getParams' loop: the names one segment contributes. */
  method SegmentNames(s: string) returns (names: seq<string>)
    ensures names == SegmentParams(s)
    ensures forall k :: 0 <= k < |names| ==> ':' !in names[k] && '?' !in names[k]
  {
    names := [];
    if s != "" {
      if s[0] == ':' {
        var name := StripMarks(s);
        StripMarksRemoves(s);
        names := names + [name];
      }
      if '*' in s {
        names := names + ["*"];
      }
    }
  }

  lemma ParamsOfSnoc(segs: seq<string>, i: nat)
    requires i < |segs|
    ensures ParamsOf(segs[..i + 1]) == ParamsOf(segs[..i]) + SegmentParams(segs[i])
  {
    assert segs[..i + 1][..i] == segs[..i];
  }

  /** Deleting marks: the result is the segment with every ':' and '?' removed. */
  function Unmarked(s: string): string
    decreases |s|
  {
    if |s| == 0 then "" else (if s[0] == ':' || s[0] == '?' then "" else [s[0]]) + Unmarked(s[1..])
  }

  lemma {:induction false} StripMarksRemoves(s: string)
    ensures StripMarks(s) == Unmarked(s)
    ensures ':' !in StripMarks(s) && '?' !in StripMarks(s)
    decreases |s|
  {
    if |s| > 0 {
      StripMarksRemoves(s[1..]);
      assert HasPrefix(s, ":") <==> s[0] == ':';
      assert HasPrefix(s, "?") <==> s[0] == '?';
    }
  }

  // ---------------------------------------------------------------------
  // getRegex

  /** The segment kind(s) one path segment compiles to (utils.go:87-101). */
  function SegmentKind(s: string): seq<Seg>
  {
    if s == "" then []
    else if s[0] == ':' then (if '?' in s then [Opt] else [Req])
    else if s[0] == '*' then [Wild]
    else [Lit(s)]
  }

  function CompileSegs(segs: seq<string>): seq<Seg>
    decreases |segs|
  {
    if |segs| == 0 then [] else CompileSegs(segs[..|segs| - 1]) + SegmentKind(segs[|segs| - 1])
  }

  /** The matcher `getRegex(path)` stands for. */
  function Compile(path: string): seq<Seg>
  {
    CompileSegs(Split(path, '/'))
  }

  /** The lazy capture of one segment's text, `([^/]+?)`. */
  const LazyGroup: string := "([^/]+?)"

  /** The regular-expression text each kind is written as. */
  function Fragment(k: Seg): string
  {
    match k
    case Opt => "(?:/" + LazyGroup + ")?"
    case Req => "/(?:" + LazyGroup + ")"
    case Wild => "/(.*)"
    case Lit(t) => "/" + t
  }

  function Render(p: seq<Seg>): string
    decreases |p|
  {
    if |p| == 0 then "" else Render(p[..|p| - 1]) + Fragment(p[|p| - 1])
  }

  /** getRegex: builds the pattern text and its compiled form segment by segment. */
  method GetRegex(path: string) returns (pattern: string, matcher: seq<Seg>)
    ensures matcher == Compile(path)
    ensures pattern == "^" + Render(matcher) + "/?$"
  {
    pattern := "^";
    matcher := [];
    var segments := Split(path, '/');
    for i := 0 to |segments|
      invariant matcher == CompileSegs(segments[..i])
      invariant pattern == "^" + Render(matcher)
    {
      var s := segments[i];
      CompileSnoc(segments, i);
      if s != "" {
        var k: Seg;
        if s[0] == ':' {
          if '?' in s {
            k := Opt;
          } else {
            k := Req;
          }
        } else if s[0] == '*' {
          k := Wild;
        } else {
          k := Lit(s);
        }
        RenderSnoc(matcher, k);
        pattern := pattern + Fragment(k);
        matcher := matcher + [k];
      }
    }
    assert segments[..|segments|] == segments;
    pattern := pattern + "/?$";
  }

  lemma CompileSnoc(segs: seq<string>, i: nat)
    requires i < |segs|
    ensures CompileSegs(segs[..i + 1]) == CompileSegs(segs[..i]) + SegmentKind(segs[i])
  {
    assert segs[..i + 1][..i] == segs[..i];
  }

  lemma RenderSnoc(p: seq<Seg>, k: Seg)
    ensures "^" + Render(p + [k]) == "^" + Render(p) + Fragment(k)
  {
    assert (p + [k])[..|p|] == p;
  }

  // ---------------------------------------------------------------------
  // Capture groups

  /** The capturing kinds of a pattern, left to right (literals capture nothing). */
  function Captures(p: seq<Seg>): seq<Seg>
    decreases |p|
  {
    if |p| == 0 then [] else (if p[0].Lit? then [] else [p[0]]) + Captures(p[1..])
  }

  function Groups(p: seq<Seg>): nat
  {
    |Captures(p)|
  }

  lemma {:induction false} CapturesAppend(a: seq<Seg>, b: seq<Seg>)
    ensures Captures(a + b) == Captures(a) + Captures(b)
    decreases |a|
  {
    if |a| > 0 {
      assert (a + b)[0] == a[0];
      assert (a + b)[1..] == a[1..] + b;
      CapturesAppend(a[1..], b);
    } else {
      assert a + b == b;
    }
  }

  /** The number of capturing groups in a regular expression: '(' not followed by '?'. */
  function RegexGroups(s: string): nat
    decreases |s|
  {
    if |s| == 0 then 0
    else RegexGroups(s[1..]) + (if s[0] == '(' && !(|s| > 1 && s[1] == '?') then 1 else 0)
  }

  lemma {:induction false} RegexGroupsAppend(a: string, b: string)
    requires |a| == 0 || a[|a| - 1] != '('
    ensures RegexGroups(a + b) == RegexGroups(a) + RegexGroups(b)
    decreases |a|
  {
    if |a| > 0 {
      assert (a + b)[0] == a[0];
      assert (a + b)[1..] == a[1..] + b;
      RegexGroupsAppend(a[1..], b);
      if |a| > 1 {
        assert (a + b)[1] == a[1];
      } else if |b| > 0 {
        assert (a + b)[1] == b[0];
      }
    } else {
      assert a + b == b;
    }
  }

  lemma {:induction false} NoParenNoGroups(s: string)
    requires '(' !in s
    ensures RegexGroups(s) == 0
    decreases |s|
  {
    if |s| > 0 {
      NoParenNoGroups(s[1..]);
    }
  }

  lemma FragmentGroups(k: Seg)
    requires k.Lit? ==> '(' !in k.text
    ensures RegexGroups(Fragment(k)) == if k.Lit? then 0 else 1
    ensures |Fragment(k)| > 0 && Fragment(k)[|Fragment(k)| - 1] != '('
  {
    match k
    case Lit(t) =>
      NoParenNoGroups("/" + t);
    case Opt =>
      OptFragmentGroups();
    case Req =>
      ReqFragmentGroups();
    case Wild =>
      WildFragmentGroups();
  }

  lemma OptFragmentGroups()
    ensures RegexGroups(Fragment(Opt)) == 1
  {
    var head := "(?:/";
    LazyGroupText();
    OneStep(head);
    NoParenNoGroups(head[1..]);
    RegexGroupsAppend(head, LazyGroup);
    NoParenNoGroups(")?");
    RegexGroupsAppend(head + LazyGroup, ")?");
  }

  lemma ReqFragmentGroups()
    ensures RegexGroups(Fragment(Req)) == 1
  {
    var head := "/(?:";
    LazyGroupText();
    OneStep(head);
    OneStep(head[1..]);
    NoParenNoGroups(head[2..]);
    RegexGroupsAppend(head, LazyGroup);
    NoParenNoGroups(")");
    RegexGroupsAppend(head + LazyGroup, ")");
  }

  lemma WildFragmentGroups()
    ensures RegexGroups("/(.*)") == 1
  {
    OneStep("/(.*)");
    OneStep("(.*)");
    NoParenNoGroups(".*)");
  }

  /** One step of RegexGroups, spelled out for a literal. */
  lemma OneStep(s: string)
    requires |s| > 0
    ensures RegexGroups(s) == RegexGroups(s[1..]) + (if s[0] == '(' && !(|s| > 1 && s[1] == '?') then 1 else 0)
  {
  }

  /** The capturing part of a parameter fragment holds one group. */
  lemma LazyGroupText()
    ensures RegexGroups(LazyGroup) == 1
    ensures LazyGroup[|LazyGroup| - 1] == ')'
  {
    OneStep(LazyGroup);
    NoParenNoGroups(LazyGroup[1..]);
  }

  lemma {:induction false} RenderGroups(p: seq<Seg>)
    requires forall i :: 0 <= i < |p| && p[i].Lit? ==> '(' !in p[i].text
    ensures RegexGroups(Render(p)) == Groups(p)
    ensures |Render(p)| == 0 || Render(p)[|Render(p)| - 1] != '('
    decreases |p|
  {
    if |p| > 0 {
      var init, last := p[..|p| - 1], p[|p| - 1];
      assert p == init + [last];
      RenderGroups(init);
      FragmentGroups(last);
      RegexGroupsAppend(Render(init), Fragment(last));
      CapturesAppend(init, [last]);
    }
  }

  /**
   * When no literal segment contains '(', the pattern `getRegex` emits has
   * exactly one capturing group per capturing segment kind.
   */
  lemma PatternGroups(path: string, pattern: string, matcher: seq<Seg>)
    requires matcher == Compile(path)
    requires pattern == "^" + Render(matcher) + "/?$"
    requires '(' !in path
    ensures RegexGroups(pattern) == Groups(matcher)
  {
    NoParenSegments(path);
    LitTextsFrom(Split(path, '/'));
    RenderGroups(matcher);
    RegexGroupsAppend("^", Render(matcher));
    RegexGroupsAppend("^" + Render(matcher), "/?$");
  }

  lemma NoParenSegments(path: string)
    requires '(' !in path
    ensures forall k :: 0 <= k < |Split(path, '/')| ==> '(' !in Split(path, '/')[k]
  {
    var parts := Split(path, '/');
    JoinSplit(path, '/');
    forall k | 0 <= k < |parts|
      ensures '(' !in parts[k]
    {
      JoinContains(parts, "/", k);
    }
  }

  /** Every piece of a join occurs inside it. */
  lemma {:induction false} JoinContains(parts: seq<string>, sep: string, k: nat)
    requires k < |parts|
    ensures forall c :: c in parts[k] ==> c in Join(parts, sep)
    decreases |parts|
  {
    if |parts| > 1 && k < |parts| - 1 {
      JoinContains(parts[..|parts| - 1], sep, k);
    }
  }

  lemma {:induction false} LitTextsFrom(segs: seq<string>)
    requires forall k :: 0 <= k < |segs| ==> '(' !in segs[k]
    ensures forall i :: 0 <= i < |CompileSegs(segs)| && CompileSegs(segs)[i].Lit? ==> '(' !in CompileSegs(segs)[i].text
    decreases |segs|
  {
    if |segs| > 0 {
      LitTextsFrom(segs[..|segs| - 1]);
    }
  }

  // ---------------------------------------------------------------------
  // Parameter names against capture groups

  /** '*' occurs in a segment only if the segment starts with it. */
  predicate StarsLead(segs: seq<string>)
  {
    forall k :: 0 <= k < |segs| && '*' in segs[k] ==> segs[k][0] == '*'
  }

  /**
   * When every '*' leads its segment, the names `getParams` lists line up with
   * the capture groups `getRegex` emits: same number, and a name is "*"
   * exactly where the group is a wildcard.
   */
  lemma {:induction false} ParamsAlign(segs: seq<string>)
    requires StarsLead(segs)
    ensures |ParamsOf(segs)| == Groups(CompileSegs(segs))
    ensures forall k :: 0 <= k < |ParamsOf(segs)| ==>
      (ParamsOf(segs)[k] == "*" <==> Captures(CompileSegs(segs))[k] == Wild)
    decreases |segs|
  {
    if |segs| > 0 {
      var init, s := segs[..|segs| - 1], segs[|segs| - 1];
      ParamsAlign(init);
      CapturesAppend(CompileSegs(init), SegmentKind(s));
      SegmentAligned(s);
      AlignedAppend(ParamsOf(init), SegmentParams(s), Captures(CompileSegs(init)), Captures(SegmentKind(s)));
    }
  }

  /** Names and capture groups agree in number and in where the wildcards are. */
  predicate Aligned(names: seq<string>, caps: seq<Seg>)
  {
    |names| == |caps| && forall k :: 0 <= k < |names| ==> (names[k] == "*" <==> caps[k] == Wild)
  }

  lemma AlignedAppend(a: seq<string>, b: seq<string>, c: seq<Seg>, d: seq<Seg>)
    requires Aligned(a, c) && Aligned(b, d)
    ensures Aligned(a + b, c + d)
  {
    forall k | 0 <= k < |a + b|
      ensures (a + b)[k] == "*" <==> (c + d)[k] == Wild
    {
      if k >= |a| {
        assert (a + b)[k] == b[k - |a|] && (c + d)[k] == d[k - |a|];
      }
    }
  }

  /** One segment whose '*', if any, leads it: its names line up with its groups. */
  lemma SegmentAligned(s: string)
    requires '*' in s ==> s[0] == '*'
    ensures Aligned(SegmentParams(s), Captures(SegmentKind(s)))
  {
    if s != "" && s[0] == ':' {
      StripMarksRemoves(s);
      assert StripMarks(s) != "*" by {
        if StripMarks(s) == "*" {
          assert '*' in StripMarks(s);
          UnmarkedKeeps(s, '*');
        }
      }
      assert Captures(SegmentKind(s)) == SegmentKind(s);
    } else if s != "" && s[0] == '*' {
      assert Captures([Wild]) == [Wild];
    } else if s != "" {
      assert Captures([Lit(s)]) == [];
    }
  }

  /** A segment without marks is left as it is. */
  lemma {:induction false} UnmarkedPlain(s: string)
    requires ':' !in s && '?' !in s
    ensures Unmarked(s) == s
    decreases |s|
  {
    if |s| > 0 {
      UnmarkedPlain(s[1..]);
      assert s == [s[0]] + s[1..];
    }
  }

  lemma {:induction false} UnmarkedKeeps(s: string, c: char)
    requires c in Unmarked(s)
    ensures c in s
    decreases |s|
  {
    if |s| > 0 {
      if c !in [s[0]] || s[0] == ':' || s[0] == '?' {
        UnmarkedKeeps(s[1..], c);
      }
    }
  }

  /**
   * The source does not keep names and groups aligned for a ':'-segment that
   * contains '*': "/:id*" lists two names for a pattern with one group.
   */
  lemma StarInParamMisaligns()
    ensures ParamsSpec("/:id*") == ["id*", "*"]
    ensures Groups(Compile("/:id*")) == 1
  {
    var w := ":id*";
    assert '/' !in w && '*' in w && '?' !in w;
    StarParam(w);
    assert "/" + w == "/:id*";
    UnmarkIdStar();
  }

  /** A single ':'-segment holding '*' lists two names but compiles to one group. */
  lemma StarParam(w: string)
    requires |w| > 0 && w[0] == ':' && '/' !in w && '*' in w
    ensures ParamsSpec("/" + w) == [StripMarks(w), "*"]
    ensures Groups(Compile("/" + w)) == 1
  {
    var segs := Split("/" + w, '/');
    SplitRooted(w);
    assert segs[..1] == [""];
    assert ParamsOf(segs) == ParamsOf([""]) + SegmentParams(w);
    assert CompileSegs(segs) == CompileSegs([""]) + SegmentKind(w);
    var k := if '?' in w then Opt else Req;
    assert Compile("/" + w) == [k];
    assert Captures([k]) == [k];
  }

  lemma SplitIdStar()
    ensures Split("/:id*", '/') == ["", ":id*"]
  {
    var w := ":id*";
    assert '/' !in w;
    SplitRooted(w);
    assert "/" + w == "/:id*";
  }

  /** A rooted path of one segment splits into "" and that segment. */
  lemma SplitRooted(w: string)
    requires '/' !in w
    ensures Split("/" + w, '/') == ["", w]
  {
    assert "/" + w == "" + ['/'] + w;
    SplitConcat("", w, '/');
    NoSepSplit(w, '/');
  }

  lemma UnmarkIdStar()
    ensures StripMarks(":id*") == "id*"
  {
    StripMarksRemoves(":id*");
    assert Unmarked("*") == "*";
    assert Unmarked("d*") == "d*";
    assert Unmarked("id*") == "id*";
  }

  // ---------------------------------------------------------------------
  // The matcher

  /** The length of the longest prefix of `t` free of '/' ([^/]). */
  function SlashFreeRun(t: string): (r: nat)
    ensures r <= |t|
    ensures forall i :: 0 <= i < r ==> t[i] != '/'
    ensures r < |t| ==> t[r] == '/'
    decreases |t|
  {
    if |t| == 0 || t[0] == '/' then 0 else 1 + SlashFreeRun(t[1..])
  }

  /** The length of the longest prefix of `t` free of newlines (what '.' accepts). */
  function LineRun(t: string): (r: nat)
    ensures r <= |t|
    ensures forall i :: 0 <= i < r ==> t[i] != '\n'
    ensures r < |t| ==> t[r] == '\n'
    decreases |t|
  {
    if |t| == 0 || t[0] == '\n' then 0 else 1 + LineRun(t[1..])
  }

  /**
   * Full match of `s` against `^` + Render(p) + `/?$`, returning the captured
   * texts of the first match a backtracking engine finds (a skipped optional
   * group captures "").
   */
  function Match(p: seq<Seg>, s: string): Option<seq<string>>
    decreases |p|, 0, 0
  {
    if |p| == 0 then (if s == "" || s == "/" then Some([]) else None)
    else match p[0]
      case Lit(t) =>
        if HasPrefix(s, "/" + t) then Match(p[1..], s[|t| + 1..]) else None
      case Req =>
        if |s| > 0 && s[0] == '/' then Lazy(p[1..], s[1..], 1) else None
      case Opt =>
        var taken := if |s| > 0 && s[0] == '/' then Lazy(p[1..], s[1..], 1) else None;
        if taken.Some? then taken
        else (match Match(p[1..], s) case Some(c) => Some([""] + c) case None => None)
      case Wild =>
        if |s| > 0 && s[0] == '/' then Greedy(p[1..], s[1..], LineRun(s[1..])) else None
  }

  /** `([^/]+?)` then `rest`: capture lengths k, k+1, ... are tried in turn. */
  function Lazy(rest: seq<Seg>, t: string, k: nat): Option<seq<string>>
    requires k >= 1
    decreases |rest|, 1, |t| - k
  {
    if k > SlashFreeRun(t) then None
    else match Match(rest, t[k..])
      case Some(c) => Some([t[..k]] + c)
      case None => Lazy(rest, t, k + 1)
  }

  /** `(.*)` then `rest`: capture lengths k, k-1, ..., 0 are tried in turn. */
  function Greedy(rest: seq<Seg>, t: string, k: nat): Option<seq<string>>
    requires k <= |t|
    decreases |rest|, 1, k
  {
    match Match(rest, t[k..])
    case Some(c) => Some([t[..k]] + c)
    case None => if k == 0 then None else Greedy(rest, t, k - 1)
  }

  /** What a capture of the given kind may hold. */
  predicate CaptureOk(k: Seg, c: string)
  {
    match k
    case Req => c != "" && '/' !in c
    case Opt => '/' !in c
    case Wild => '\n' !in c
    case Lit(_) => true
  }

  predicate CapturesOk(p: seq<Seg>, c: seq<string>)
  {
    |c| == Groups(p) && forall i :: 0 <= i < |c| ==> CaptureOk(Captures(p)[i], c[i])
  }

  /** The path a pattern describes once its captures are filled in (missing captures read as ""). */
  function Fill(p: seq<Seg>, c: seq<string>): string
    decreases |p|
  {
    if |p| == 0 then ""
    else
      var v := if |c| > 0 then c[0] else "";
      match p[0]
      case Lit(t) => "/" + t + Fill(p[1..], c)
      case Opt => (if v == "" then "" else "/" + v) + Fill(p[1..], if |c| > 0 then c[1..] else [])
      case _ => "/" + v + Fill(p[1..], if |c| > 0 then c[1..] else [])
  }

  /** Fill at a capturing segment that holds a non-empty capture. */
  lemma FillCapture(p: seq<Seg>, c: seq<string>)
    requires |p| > 0 && !p[0].Lit? && |c| > 0 && c[0] != ""
    ensures Fill(p, c) == "/" + c[0] + Fill(p[1..], c[1..])
  {
  }

  lemma Reassociate(a: string, b: string, e: string)
    ensures ("/" + a + b) + e == "/" + (a + (b + e))
    ensures ("/" + a + b + e)[1..] == a + (b + e)
    ensures |("/" + a + b) + e| > 0 && (("/" + a + b) + e)[0] == '/'
  {
  }

  lemma CapturesOkTail(p: seq<Seg>, c: seq<string>)
    requires |p| > 0 && !p[0].Lit? && CapturesOk(p, c)
    ensures CapturesOk(p[1..], c[1..]) && CaptureOk(p[0], c[0])
  {
    assert Captures(p) == [p[0]] + Captures(p[1..]);
    forall i | 0 <= i < |c| - 1
      ensures CaptureOk(Captures(p[1..])[i], c[1..][i])
    {
      assert Captures(p)[i + 1] == Captures(p[1..])[i];
    }
  }

  lemma CapturesOkCons(p: seq<Seg>, c: seq<string>)
    requires |p| > 0 && !p[0].Lit? && |c| > 0
    requires CapturesOk(p[1..], c[1..]) && CaptureOk(p[0], c[0])
    ensures CapturesOk(p, c)
  {
    assert Captures(p) == [p[0]] + Captures(p[1..]);
    forall i | 0 <= i < |c|
      ensures CaptureOk(Captures(p)[i], c[i])
    {
      if i > 0 {
        assert Captures(p)[i] == Captures(p[1..])[i - 1];
        assert c[i] == c[1..][i - 1];
      }
    }
  }

  /**
   * Soundness: a successful match yields one capture per group, each of the
   * shape its group accepts, and the path is the pattern filled with them
   * (possibly followed by the one trailing '/' that `/?$` admits).
   */
  lemma {:induction false} MatchSound(p: seq<Seg>, s: string)
    requires Match(p, s).Some?
    ensures CapturesOk(p, Match(p, s).value)
    ensures s == Fill(p, Match(p, s).value) || s == Fill(p, Match(p, s).value) + "/"
    decreases |p|, 2
  {
    if |p| > 0 {
      match p[0]
      case Lit(t) => LitSound(p, s);
      case Req => ReqSound(p, s);
      case Wild => WildSound(p, s);
      case Opt => OptSound(p, s);
    }
  }

  lemma {:induction false} LitSound(p: seq<Seg>, s: string)
    requires |p| > 0 && p[0].Lit? && Match(p, s).Some?
    ensures CapturesOk(p, Match(p, s).value)
    ensures s == Fill(p, Match(p, s).value) || s == Fill(p, Match(p, s).value) + "/"
    decreases |p|, 1
  {
    var rest := p[1..];
    var head := "/" + p[0].text;
    assert HasPrefix(s, head);
    var s' := s[|head|..];
    assert Match(p, s) == Match(rest, s');
    var c := Match(rest, s').value;
    MatchSound(rest, s');
    PrefixRest(s, head);
    assert Captures(p) == Captures(rest);
    assert Fill(p, c) == head + Fill(rest, c);
    PrependSlashed(head, s', Fill(rest, c));
  }

  lemma {:induction false} ReqSound(p: seq<Seg>, s: string)
    requires |p| > 0 && p[0].Req? && Match(p, s).Some?
    ensures CapturesOk(p, Match(p, s).value)
    ensures s == Fill(p, Match(p, s).value) || s == Fill(p, Match(p, s).value) + "/"
    decreases |p|, 1
  {
    var rest := p[1..];
    var t := s[1..];
    assert Match(p, s) == Lazy(rest, t, 1);
    var c := Lazy(rest, t, 1).value;
    LazySound(rest, t, 1);
    CapturesOkCons(p, c);
    var f := Fill(rest, c[1..]);
    assert Fill(p, c) == "/" + c[0] + f;
    SlashHead(s);
    AppendAssoc("/", c[0], f);
    AppendAssoc("/", c[0] + f, "/");
  }


  lemma {:induction false} WildSound(p: seq<Seg>, s: string)
    requires |p| > 0 && p[0].Wild? && Match(p, s).Some?
    ensures CapturesOk(p, Match(p, s).value)
    ensures s == Fill(p, Match(p, s).value) || s == Fill(p, Match(p, s).value) + "/"
    decreases |p|, 1
  {
    var rest := p[1..];
    var t := s[1..];
    var k := LineRun(t);
    assert Match(p, s) == Greedy(rest, t, k);
    var c := Greedy(rest, t, k).value;
    GreedySound(rest, t, k);
    assert CaptureOk(Wild, c[0]);
    CapturesOkCons(p, c);
    var f := Fill(rest, c[1..]);
    assert Fill(p, c) == "/" + c[0] + f;
    SlashHead(s);
    AppendAssoc("/", c[0], f);
    AppendAssoc("/", c[0] + f, "/");
  }


  /** A text that starts with '/' is "/" followed by the rest. */
  lemma SlashHead(s: string)
    requires |s| > 0 && s[0] == '/'
    ensures s == "/" + s[1..]
  {
  }

  lemma {:induction false} OptSound(p: seq<Seg>, s: string)
    requires |p| > 0 && p[0].Opt? && Match(p, s).Some?
    ensures CapturesOk(p, Match(p, s).value)
    ensures s == Fill(p, Match(p, s).value) || s == Fill(p, Match(p, s).value) + "/"
    decreases |p|, 1
  {
    var rest := p[1..];
    if |s| > 0 && s[0] == '/' && Lazy(rest, s[1..], 1).Some? {
      assert Match(p, s) == Lazy(rest, s[1..], 1);
      OptTakenSound(p, s);
    } else {
      assert Match(p, s) == Some([""] + Match(rest, s).value);
      OptSkippedSound(p, s);
    }
  }

  /** An optional group that consumed its segment. */
  lemma {:induction false} OptTakenSound(p: seq<Seg>, s: string)
    requires |p| > 0 && p[0].Opt? && |s| > 0 && s[0] == '/' && Lazy(p[1..], s[1..], 1).Some?
    ensures var c := Lazy(p[1..], s[1..], 1).value;
      CapturesOk(p, c) && (s == Fill(p, c) || s == Fill(p, c) + "/")
    decreases |p|, 0
  {
    var rest, t := p[1..], s[1..];
    var c := Lazy(rest, t, 1).value;
    LazySound(rest, t, 1);
    assert s == "/" + t;
    CapturesOkCons(p, c);
    var f := Fill(rest, c[1..]);
    assert Fill(p, c) == "/" + c[0] + f;
    AppendAssoc("/", c[0], f);
    AppendAssoc("/", c[0] + f, "/");
  }

  /** An optional group that was skipped: its capture is "". */
  lemma {:induction false} OptSkippedSound(p: seq<Seg>, s: string)
    requires |p| > 0 && p[0].Opt? && Match(p[1..], s).Some?
    ensures var c := [""] + Match(p[1..], s).value;
      CapturesOk(p, c) && (s == Fill(p, c) || s == Fill(p, c) + "/")
    decreases |p|, 0
  {
    var rest := p[1..];
    var c' := Match(rest, s).value;
    var c := [""] + c';
    MatchSound(rest, s);
    assert c[1..] == c';
    CapturesOkCons(p, c);
    assert Fill(p, c) == Fill(rest, c');
  }

  lemma {:induction false} LazySound(rest: seq<Seg>, t: string, k: nat)
    requires k >= 1 && Lazy(rest, t, k).Some?
    ensures var c := Lazy(rest, t, k).value;
      |c| >= 1 && c[0] != "" && '/' !in c[0] && CapturesOk(rest, c[1..])
      && (t == c[0] + Fill(rest, c[1..]) || t == c[0] + Fill(rest, c[1..]) + "/")
    decreases |rest|, 3, |t| - k
  {
    var r := Match(rest, t[k..]);
    if r.Some? {
      var c := [t[..k]] + r.value;
      assert Lazy(rest, t, k).value == c;
      MatchSound(rest, t[k..]);
      assert t == t[..k] + t[k..];
      assert c[0] == t[..k] && c[1..] == r.value;
      PrependSlashed(t[..k], t[k..], Fill(rest, r.value));
    } else {
      assert Lazy(rest, t, k) == Lazy(rest, t, k + 1);
      LazySound(rest, t, k + 1);
    }
  }

  lemma {:induction false} GreedySound(rest: seq<Seg>, t: string, k: nat)
    requires k <= LineRun(t) && Greedy(rest, t, k).Some?
    ensures var c := Greedy(rest, t, k).value;
      |c| >= 1 && '\n' !in c[0] && CapturesOk(rest, c[1..])
      && (t == c[0] + Fill(rest, c[1..]) || t == c[0] + Fill(rest, c[1..]) + "/")
    decreases |rest|, 3, k
  {
    var r := Match(rest, t[k..]);
    if r.Some? {
      var c := [t[..k]] + r.value;
      assert Greedy(rest, t, k).value == c;
      MatchSound(rest, t[k..]);
      assert t == t[..k] + t[k..];
      assert c[0] == t[..k] && c[1..] == r.value;
      PrependSlashed(t[..k], t[k..], Fill(rest, r.value));
    } else {
      assert Greedy(rest, t, k) == Greedy(rest, t, k - 1);
      GreedySound(rest, t, k - 1);
    }
  }

  /**
   * Completeness: whenever the path is the pattern filled with admissible
   * captures (optionally followed by '/'), the backtracking search finds a match.
   */
  lemma {:induction false} MatchComplete(p: seq<Seg>, c: seq<string>, s: string)
    requires CapturesOk(p, c)
    requires s == Fill(p, c) || s == Fill(p, c) + "/"
    ensures Match(p, s).Some?
    decreases |p|, 1
  {
    if |p| > 0 {
      match p[0]
      case Lit(t) => LitComplete(p, c, s);
      case Req =>
        CapturesOkTail(p, c);
        CaptureComplete(p, c, s);
        LazyFinds(p[1..], s[1..], 1, |c[0]|);
      case Wild =>
        CapturesOkTail(p, c);
        CaptureComplete(p, c, s);
        GreedyFinds(p[1..], s[1..], LineRun(s[1..]), |c[0]|);
      case Opt =>
        CapturesOkTail(p, c);
        if c[0] == "" {
          MatchComplete(p[1..], c[1..], s);
        } else {
          CaptureComplete(p, c, s);
          LazyFinds(p[1..], s[1..], 1, |c[0]|);
        }
    }
  }

  lemma {:induction false} LitComplete(p: seq<Seg>, c: seq<string>, s: string)
    requires |p| > 0 && p[0].Lit? && CapturesOk(p, c)
    requires s == Fill(p, c) || s == Fill(p, c) + "/"
    ensures Match(p, s).Some?
    decreases |p|, 0
  {
    var rest := p[1..];
    var t := p[0].text;
    var head := "/" + t;
    assert Captures(p) == Captures(rest);
    var f := Fill(rest, c);
    assert Fill(p, c) == head + f;
    var s' := if s == Fill(p, c) then f else f + "/";
    assert s == head + s';
    assert HasPrefix(s, head);
    assert s[|t| + 1..] == s';
    MatchComplete(rest, c, s');
  }


  /** After a non-empty capture at the head, the rest of the path matches the rest of the pattern. */
  lemma {:induction false} CaptureComplete(p: seq<Seg>, c: seq<string>, s: string)
    requires |p| > 0 && !p[0].Lit? && |c| > 0 && (p[0].Opt? ==> c[0] != "")
    requires CapturesOk(p[1..], c[1..])
    requires s == Fill(p, c) || s == Fill(p, c) + "/"
    ensures |s| > 0 && |c[0]| <= |s[1..]| && s[1..][..|c[0]|] == c[0]
    ensures Match(p[1..], s[1..][|c[0]|..]).Some?
    decreases |p|, 0
  {
    var f := Fill(p[1..], c[1..]);
    assert Fill(p, c) == "/" + c[0] + f;
    var s' := if s == Fill(p, c) then f else f + "/";
    AppendAssoc("/", c[0], s');
    AppendAssoc("/" + c[0], f, "/");
    assert s == "/" + (c[0] + s');
    assert s[1..] == c[0] + s';
    assert s[1..][|c[0]|..] == s';
    MatchComplete(p[1..], c[1..], s');
  }

  lemma {:induction false} LazyFinds(rest: seq<Seg>, t: string, k: nat, k0: nat)
    requires 1 <= k <= k0 <= SlashFreeRun(t)
    requires Match(rest, t[k0..]).Some?
    ensures Lazy(rest, t, k).Some?
    decreases k0 - k
  {
    if Match(rest, t[k..]).None? {
      LazyFinds(rest, t, k + 1, k0);
    }
  }

  lemma {:induction false} GreedyFinds(rest: seq<Seg>, t: string, k: nat, k0: nat)
    requires k0 <= k <= |t|
    requires Match(rest, t[k0..]).Some?
    ensures Greedy(rest, t, k).Some?
    decreases k - k0
  {
    if Match(rest, t[k..]).None? {
      GreedyFinds(rest, t, k - 1, k0);
    }
  }

  /** A path that does not start with '/' (and is not empty) never matches. */
  lemma {:induction false} MatchNeedsSlash(p: seq<Seg>, s: string)
    requires |s| > 0 && s[0] != '/'
    ensures Match(p, s).None?
    decreases |p|
  {
    if |p| > 0 && p[0].Opt? {
      MatchNeedsSlash(p[1..], s);
    }
  }

  /** A pattern of literal and required segments only. */
  predicate LitReqOnly(p: seq<Seg>)
  {
    forall i :: 0 <= i < |p| ==> p[i].Lit? || p[i].Req?
  }

  lemma {:induction false} FillStartsWithSlash(p: seq<Seg>, c: seq<string>)
    requires LitReqOnly(p) && |c| == Groups(p)
    ensures Fill(p, c) == "" || Fill(p, c)[0] == '/'
    decreases |p|
  {
  }

  /**
   * Round trip for patterns made of literals and required parameters: filling
   * the pattern and matching it back returns exactly the captures, with or
   * without a trailing '/'.
   */
  lemma {:induction false} MatchFillExact(p: seq<Seg>, c: seq<string>, e: string)
    requires LitReqOnly(p) && CapturesOk(p, c)
    requires e == "" || e == "/"
    ensures Match(p, Fill(p, c) + e) == Some(c)
    decreases |p|, 1
  {
    if |p| == 0 {
      assert Fill(p, c) + e == e;
    } else {
      var s := Fill(p, c) + e;
      assert LitReqOnly(p[1..]);
      match p[0]
      case Lit(t) =>
        assert Captures(p) == Captures(p[1..]);
        MatchFillExact(p[1..], c, e);
        assert s == ("/" + t) + (Fill(p[1..], c) + e);
      case Req =>
        ReqFillExact(p, c, e);
    }
  }

  lemma {:induction false} ReqFillExact(p: seq<Seg>, c: seq<string>, e: string)
    requires |p| > 0 && p[0].Req? && LitReqOnly(p) && CapturesOk(p, c)
    requires e == "" || e == "/"
    ensures Match(p, Fill(p, c) + e) == Some(c)
    decreases |p|, 0
  {
    var rest := p[1..];
    assert LitReqOnly(rest);
    CapturesOkTail(p, c);
    var c0 := c[0];
    var tail := Fill(rest, c[1..]) + e;
    MatchFillExact(rest, c[1..], e);
    var t := c0 + tail;
    var s := Fill(p, c) + e;
    FillCapture(p, c);
    Reassociate(c0, Fill(rest, c[1..]), e);
    FillStartsWithSlash(rest, c[1..]);
    assert tail == "" || tail[0] == '/';
    LazyTakesCapture(rest, c0, tail);
    assert Match(p, s) == Lazy(rest, t, 1);
    ConsTail(c);
  }

  /** A lazy capture stops at the first '/', where the rest of the path begins. */
  lemma LazyTakesCapture(rest: seq<Seg>, c0: string, tail: string)
    requires c0 != "" && '/' !in c0 && (tail == "" || tail[0] == '/')
    requires Match(rest, tail).Some?
    ensures Lazy(rest, c0 + tail, 1) == Some([c0] + Match(rest, tail).value)
  {
    var t := c0 + tail;
    RunStopsAtSlash(c0, tail);
    NoEarlierMatch(rest, c0, tail);
    assert t[|c0|..] == tail;
    assert t[..|c0|] == c0;
    LazyFirst(rest, t, 1, |c0|);
  }

  lemma RunStopsAtSlash(c0: string, tail: string)
    requires '/' !in c0 && (tail == "" || tail[0] == '/')
    ensures SlashFreeRun(c0 + tail) == |c0|
  {
    var t := c0 + tail;
    assert forall i :: 0 <= i < |c0| ==> t[i] == c0[i];
    if |c0| < |t| {
      assert t[|c0|] == tail[0];
    }
  }

  lemma NoEarlierMatch(rest: seq<Seg>, c0: string, tail: string)
    requires '/' !in c0
    ensures forall j :: 1 <= j < |c0| ==> Match(rest, (c0 + tail)[j..]).None?
  {
    forall j | 1 <= j < |c0|
      ensures Match(rest, (c0 + tail)[j..]).None?
    {
      assert (c0 + tail)[j..][0] == c0[j];
      MatchNeedsSlash(rest, (c0 + tail)[j..]);
    }
  }

  lemma {:induction false} LazyFirst(rest: seq<Seg>, t: string, k: nat, k0: nat)
    requires 1 <= k <= k0 <= SlashFreeRun(t)
    requires forall j :: k <= j < k0 ==> Match(rest, t[j..]).None?
    requires Match(rest, t[k0..]).Some?
    ensures Lazy(rest, t, k) == Some([t[..k0]] + Match(rest, t[k0..]).value)
    decreases k0 - k
  {
    if k < k0 {
      LazyFirst(rest, t, k + 1, k0);
    }
  }

  /** A pattern of literals only. */
  predicate AllLit(p: seq<Seg>)
  {
    forall i :: 0 <= i < |p| ==> p[i].Lit?
  }

  lemma {:induction false} AllLitNoGroups(p: seq<Seg>)
    requires AllLit(p)
    ensures Groups(p) == 0
    decreases |p|
  {
    if |p| > 0 {
      AllLitNoGroups(p[1..]);
    }
  }

  /**
   * A trailing wildcard after literal segments matches every path under the
   * literal prefix, and captures exactly everything after it.
   */
  lemma {:induction false} WildcardTakesRest(lits: seq<Seg>, r: string)
    requires AllLit(lits) && '\n' !in r
    ensures Match(lits + [Wild], Fill(lits, []) + "/" + r) == Some([r])
    decreases |lits|
  {
    AllLitNoGroups(lits);
    if |lits| == 0 {
      assert lits + [Wild] == [Wild];
      assert Fill(lits, []) + "/" + r == "/" + r;
      assert ("/" + r)[1..] == r;
      assert LineRun(r) == |r|;
      assert r[|r|..] == "";
      var none: seq<Seg> := [];
      assert Match(none, r[|r|..]) == Some([]);
      assert r[..|r|] == r;
      var nocap: seq<string> := [];
      assert Match(none, r[|r|..]) == Some(nocap);
      assert Greedy(none, r, |r|) == Some([r[..|r|]] + nocap);
      assert [r[..|r|]] + nocap == [r];
      assert [Wild][1..] == none;
      assert Match([Wild], "/" + r) == Greedy(none, r, LineRun(r));
    } else {
      var t := lits[0].text;
      assert (lits + [Wild])[1..] == lits[1..] + [Wild];
      AllLitNoGroups(lits[1..]);
      WildcardTakesRest(lits[1..], r);
      var head, rest := "/" + t, Fill(lits[1..], []);
      assert Fill(lits, []) == head + rest;
      AppendAssoc3(head, rest, "/", r);
      MatchLitPrefix(lits + [Wild], t, rest + "/" + r);
    }
  }

  /** A literal segment consumes exactly its own "/text". */
  lemma MatchLitPrefix(p: seq<Seg>, t: string, rest: string)
    requires |p| > 0 && p[0] == Lit(t)
    ensures Match(p, "/" + t + rest) == Match(p[1..], rest)
  {
    var s := "/" + t + rest;
    assert s[..|t| + 1] == "/" + t;
    assert s[|t| + 1..] == rest;
  }

  /**
   * An optional parameter after literal segments matches both with and
   * without its segment.
   */
  lemma OptionalBothWays(lits: seq<Seg>, v: string)
    requires AllLit(lits) && v != "" && '/' !in v
    ensures Match(lits + [Opt], Fill(lits, [])).Some?
    ensures Match(lits + [Opt], Fill(lits, []) + "/" + v).Some?
  {
    OptionalCaptures(lits, "");
    OptionalCaptures(lits, v);
    var base := Fill(lits, []);
    FillLitsThen(lits, Opt, "");
    assert Fill([Opt], [""]) == "";
    assert base + "" == base;
    MatchComplete(lits + [Opt], [""], base);
    FillLitsThen(lits, Opt, v);
    assert Fill([Opt], [v]) == "/" + v;
    AppendAssoc(base, "/", v);
    MatchComplete(lits + [Opt], [v], base + "/" + v);
  }

  lemma OptionalCaptures(lits: seq<Seg>, v: string)
    requires AllLit(lits) && '/' !in v
    ensures CapturesOk(lits + [Opt], [v])
  {
    AllLitNoGroups(lits);
    CapturesAppend(lits, [Opt]);
    assert Captures([Opt]) == [Opt];
  }

  /** A required parameter after literal segments never matches when its segment is absent. */
  lemma RequiredNeedsSegment(lits: seq<Seg>)
    requires AllLit(lits)
    ensures Match(lits + [Req], Fill(lits, [])).None?
    ensures Match(lits + [Req], Fill(lits, []) + "/").None?
  {
    AbsentRequired(lits, Fill(lits, []));
    AbsentRequired(lits, Fill(lits, []) + "/");
  }

  lemma AbsentRequired(lits: seq<Seg>, s: string)
    requires AllLit(lits)
    requires |s| <= |Fill(lits, [])| + 1
    ensures Match(lits + [Req], s).None?
  {
    var p := lits + [Req];
    if Match(p, s).Some? {
      var c := Match(p, s).value;
      MatchSound(p, s);
      ReqFillLonger(lits, c);
    }
  }

  lemma ReqFillLonger(lits: seq<Seg>, c: seq<string>)
    requires AllLit(lits) && CapturesOk(lits + [Req], c)
    ensures |Fill(lits + [Req], c)| >= |Fill(lits, [])| + 2
  {
    AllLitNoGroups(lits);
    CapturesAppend(lits, [Req]);
    assert Captures([Req]) == [Req];
    assert Captures(lits + [Req]) == [Req];
    assert |c| == 1 && CaptureOk(Req, c[0]);
    assert c == [c[0]];
    FillLitsThen(lits, Req, c[0]);
    assert Fill([Req], [c[0]]) == "/" + c[0];
  }

  lemma {:induction false} FillLitsThen(lits: seq<Seg>, k: Seg, v: string)
    requires AllLit(lits) && !k.Lit?
    ensures Groups(lits + [k]) == 1
    ensures Fill(lits + [k], [v]) == Fill(lits, []) + Fill([k], [v])
    decreases |lits|
  {
    AllLitNoGroups(lits);
    CapturesAppend(lits, [k]);
    assert Captures([k]) == [k];
    if |lits| > 0 {
      assert (lits + [k])[1..] == lits[1..] + [k];
      AllLitNoGroups(lits[1..]);
      FillLitsThen(lits[1..], k, v);
    }
  }
}
