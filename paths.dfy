/**
 * Go's `path.Clean` and `path.Join` (slash-separated paths), which `fixURI`
 * uses to put a handler's prefix in front of a derived route name.  Clean is
 * written over the '/'-separated segments: empty and "." segments vanish, a
 * ".." removes the segment before it, is dropped at the root of a rooted
 * path, and is kept at the front of a relative one.
 */
module Paths {
  import opened Strs

  /** One segment of the lexical processing done by path.Clean. */
  function Step(stack: seq<string>, seg: string, rooted: bool): seq<string>
  {
    if seg == "" || seg == "." then stack
    else if seg == ".." then
      (if |stack| > 0 && stack[|stack| - 1] != ".." then stack[..|stack| - 1]
       else if rooted then stack
       else stack + [".."])
    else stack + [seg]
  }

  /** The segments that survive cleaning, starting from `stack`. */
  function Fold(stack: seq<string>, segs: seq<string>, rooted: bool): seq<string>
    decreases |segs|
  {
    if |segs| == 0 then stack
    else Step(Fold(stack, segs[..|segs| - 1], rooted), segs[|segs| - 1], rooted)
  }

  /** path.Clean. */
  function Clean(p: string): string
  {
    if p == "" then "."
    else
      var rooted := p[0] == '/';
      var kept := Fold([], Split(p, '/'), rooted);
      if |kept| == 0 then (if rooted then "/" else ".")
      else (if rooted then "/" else "") + Join(kept, "/")
  }

  /** path.Join of two elements: empty elements are ignored, and "" joins to "". */
  function Join2(a: string, b: string): string
  {
    if a != "" then Clean(a + "/" + b)
    else if b != "" then Clean(b)
    else ""
  }

  // ---------------------------------------------------------------------
  // What a cleaned path is made of

  /**
   * A well-formed segment list: every segment is non-empty, holds no '/', and
   * is not "."; ".." segments form a prefix, and there are none under a root.
   */
  predicate CleanSegs(st: seq<string>, rooted: bool)
  {
    (forall k :: 0 <= k < |st| ==> st[k] != "" && st[k] != "." && '/' !in st[k])
    && (forall k :: 0 <= k < |st| && st[k] == ".." ==> !rooted && forall j :: 0 <= j < k ==> st[j] == "..")
  }

  lemma StepClean(st: seq<string>, seg: string, rooted: bool)
    requires CleanSegs(st, rooted) && '/' !in seg
    ensures CleanSegs(Step(st, seg, rooted), rooted)
  {
    if seg == ".." && !(|st| > 0 && st[|st| - 1] != "..") && !rooted {
      var r := st + [".."];
      forall k | 0 <= k < |r| && r[k] == ".."
        ensures forall j :: 0 <= j < k ==> r[j] == ".."
      {
        if k == |st| && |st| > 0 {
          assert st[|st| - 1] == "..";
        }
      }
    }
  }

  /** Cleaning leaves only well-formed segments. */
  lemma {:induction false} FoldClean(st: seq<string>, segs: seq<string>, rooted: bool)
    requires CleanSegs(st, rooted)
    requires forall k :: 0 <= k < |segs| ==> '/' !in segs[k]
    ensures CleanSegs(Fold(st, segs, rooted), rooted)
    decreases |segs|
  {
    if |segs| > 0 {
      FoldClean(st, segs[..|segs| - 1], rooted);
      StepClean(Fold(st, segs[..|segs| - 1], rooted), segs[|segs| - 1], rooted);
    }
  }

  /** Processing an already well-formed list from scratch reproduces it. */
  lemma {:induction false} FoldOfClean(st: seq<string>, rooted: bool)
    requires CleanSegs(st, rooted)
    ensures Fold([], st, rooted) == st
    decreases |st|
  {
    if |st| > 0 {
      var n := |st| - 1;
      var init, last := st[..n], st[n];
      TakeSnoc(st, n);
      TakeAll(st);
      assert CleanSegs(init, rooted);
      FoldOfClean(init, rooted);
      assert Fold([], st, rooted) == Step(init, last, rooted);
      if last == ".." && n > 0 {
        assert init[n - 1] == "..";
      }
      assert Step(init, last, rooted) == init + [last];
    }
  }

  lemma {:induction false} SplitPiecesNoSlash(s: string)
    ensures forall k :: 0 <= k < |Split(s, '/')| ==> '/' !in Split(s, '/')[k]
  {
    SplitPieces(s, '/');
  }

  /** A leading empty segment (the root) is skipped. */
  lemma FoldSkipsRoot(st: seq<string>, rooted: bool)
    requires CleanSegs(st, rooted)
    ensures Fold([], [""] + st, rooted) == st
  {
    FoldFromEmptyFirst(st, rooted);
    FoldOfClean(st, rooted);
  }

  lemma {:induction false} FoldFromEmptyFirst(segs: seq<string>, rooted: bool)
    ensures Fold([], [""] + segs, rooted) == Fold([], segs, rooted)
    decreases |segs|
  {
    if |segs| > 0 {
      assert ([""] + segs)[..|segs|] == [""] + segs[..|segs| - 1];
      FoldFromEmptyFirst(segs[..|segs| - 1], rooted);
    } else {
      assert [""] + segs == [""];
      assert [""][..0] == [];
    }
  }

  /** The first piece of a join of non-empty pieces is not empty, so it does not start with '/'. */
  lemma {:induction false} JoinHead(parts: seq<string>)
    requires |parts| > 0 && parts[0] != "" && '/' !in parts[0]
    ensures |Join(parts, "/")| > 0 && Join(parts, "/")[0] != '/'
    decreases |parts|
  {
    if |parts| > 1 {
      JoinHead(parts[..|parts| - 1]);
    }
  }

  /** Clean is idempotent. */
  lemma CleanIdempotent(p: string)
    ensures Clean(Clean(p)) == Clean(p)
  {
    if p != "" {
      var rooted := p[0] == '/';
      var kept := Fold([], Split(p, '/'), rooted);
      SplitPiecesNoSlash(p);
      FoldClean([], Split(p, '/'), rooted);
      if |kept| == 0 {
        if rooted {
          CleanRoot();
        } else {
          CleanDot();
        }
      } else if rooted {
        CleanRooted(kept);
      } else {
        assert Clean(p) == "" + Join(kept, "/") == Join(kept, "/");
        CleanRelative(kept);
      }
    } else {
      CleanDot();
    }
  }

  lemma CleanRoot()
    ensures Clean("/") == "/"
  {
    assert "/" == "" + ['/'] + "";
    SplitConcat("", "", '/');
    assert Split("/", '/') == ["", ""];
    assert ["", ""][..1] == [""];
    assert [""][..0] == [];
  }

  lemma CleanDot()
    ensures Clean(".") == "."
  {
    NoSepSplit(".", '/');
    assert ["."][..0] == [];
  }

  lemma CleanRooted(kept: seq<string>)
    requires |kept| > 0 && CleanSegs(kept, true)
    ensures Clean("/" + Join(kept, "/")) == "/" + Join(kept, "/")
  {
    var body := Join(kept, "/");
    SplitJoin(kept, '/');
    SplitRootedPath(body);
    assert Split("/" + body, '/') == [""] + kept;
    FoldSkipsRoot(kept, true);
  }

  /** A rooted path splits into an empty first segment and the split of the rest. */
  lemma SplitRootedPath(body: string)
    ensures Split("/" + body, '/') == [""] + Split(body, '/')
  {
    assert "/" + body == "" + ['/'] + body;
    SplitConcat("", body, '/');
  }

  lemma CleanRelative(kept: seq<string>)
    requires |kept| > 0 && CleanSegs(kept, false)
    ensures Clean(Join(kept, "/")) == Join(kept, "/")
  {
    SplitJoin(kept, '/');
    JoinHead(kept);
    FoldOfClean(kept, false);
  }

  /** A cleaned path is never empty; it is rooted exactly when its input was. */
  lemma CleanShape(p: string)
    ensures Clean(p) != ""
    ensures p != "" ==> (Clean(p)[0] == '/' <==> p[0] == '/')
  {
    if p != "" && p[0] != '/' {
      var kept := Fold([], Split(p, '/'), false);
      if |kept| > 0 {
        SplitPiecesNoSlash(p);
        FoldClean([], Split(p, '/'), false);
        JoinHead(kept);
      }
    }
  }

  /** A cleaned path has no empty interior segment and no trailing '/', except the root itself. */
  lemma CleanNoEmptySegment(p: string)
    ensures var c := Clean(p);
      c == "/" || forall k :: 0 < k < |Split(c, '/')| ==> Split(c, '/')[k] != ""
  {
    if p != "" {
      var rooted := p[0] == '/';
      var kept := Fold([], Split(p, '/'), rooted);
      SplitPiecesNoSlash(p);
      FoldClean([], Split(p, '/'), rooted);
      if |kept| == 0 {
        if !rooted {
          NoSepSplit(".", '/');
        }
      } else {
        var body := Join(kept, "/");
        SplitJoin(kept, '/');
        if rooted {
          SplitRootedPath(body);
        } else {
          assert "" + body == body;
        }
      }
    } else {
      NoSepSplit(".", '/');
    }
  }

  /** Join ignores empty elements, and yields "" only when both are empty. */
  lemma Join2Empty(a: string, b: string)
    ensures Join2(a, b) == "" <==> a == "" && b == ""
    ensures a == "" ==> Join2(a, b) == (if b == "" then "" else Clean(b))
  {
    if a != "" {
      CleanShape(a + "/" + b);
    } else if b != "" {
      CleanShape(b);
    }
  }

  /** A plain segment name: non-empty, no '/', and neither "." nor "..". */
  predicate PlainName(a: string)
  {
    a != "" && '/' !in a && a != "." && a != ".."
  }

  /** A trailing '/' after one name under the root is dropped. */
  lemma CleanOneName(a: string)
    requires PlainName(a)
    ensures Clean("/" + a + "/") == "/" + a
  {
    var p := "/" + a + "/";
    var segs := ["", a, ""];
    SplitOneName(a);
    assert segs[..2] == ["", a] && segs[..2][..1] == [""] && segs[..2][..1][..0] == [];
    assert Fold([], segs[..2][..1][..0], true) == [];
    assert Fold([], segs[..2][..1], true) == [];
    assert Fold([], segs[..2], true) == [a];
    assert Fold([], segs, true) == [a];
    assert p[0] == '/';
    assert Join([a], "/") == a;
  }

  lemma SplitOneName(a: string)
    requires PlainName(a)
    ensures Split("/" + a + "/", '/') == ["", a, ""]
  {
    assert "/" + a + "/" == "" + ['/'] + (a + ['/'] + "");
    SplitConcat(a, "", '/');
    NoSepSplit(a, '/');
    SplitConcat("", a + ['/'] + "", '/');
  }

  /** A doubled '/' between two names under the root collapses to one. */
  lemma CleanTwoNames(a: string, b: string)
    requires PlainName(a) && PlainName(b)
    ensures Clean("/" + a + "//" + b) == "/" + a + "/" + b
  {
    var p := "/" + a + "//" + b;
    var segs := ["", a, "", b];
    SplitTwoNames(a, b);
    assert segs[..3] == ["", a, ""];
    assert Fold([], ["", a, ""], true) == [a] by {
      assert ["", a, ""][..2] == ["", a] && ["", a][..1] == [""] && [""][..0] == [];
      assert Fold([], [""][..0], true) == [];
      assert Fold([], [""], true) == [];
      assert Fold([], ["", a], true) == [a];
    }
    assert Fold([], segs, true) == [a, b];
    assert p[0] == '/';
    assert Join([a, b], "/") == a + "/" + b by {
      assert [a, b][..1] == [a];
    }
  }

  lemma SplitTwoNames(a: string, b: string)
    requires PlainName(a) && PlainName(b)
    ensures Split("/" + a + "//" + b, '/') == ["", a, "", b]
  {
    var mid := a + "/" + ("/" + b);
    DoubleSlashRegroup(a, b);
    SplitRootedPath(mid);
    SplitNameTail(a, b);
  }

  lemma DoubleSlashRegroup(a: string, b: string)
    ensures "/" + a + "//" + b == "/" + (a + "/" + ("/" + b))
  {
    assert "//" == "/" + "/";
    AppendAssoc("/" + a, "/", "/");
    AppendAssoc("/" + a + "/", "/", b);
    AppendAssoc("/", a, "/");
    AppendAssoc("/", a + "/", "/" + b);
  }

  lemma SplitNameTail(a: string, b: string)
    requires PlainName(a) && PlainName(b)
    ensures Split(a + "/" + ("/" + b), '/') == [a, "", b]
  {
    NoSepSplit(a, '/');
    NoSepSplit(b, '/');
    SplitRootedPath(b);
    SplitConcat(a, "/" + b, '/');
  }

  /** An empty segment anywhere in the list is dropped. */
  lemma {:induction false} FoldDropsEmpty(x: seq<string>, y: seq<string>, rooted: bool)
    ensures Fold([], x + [""] + y, rooted) == Fold([], x + y, rooted)
    decreases |y|
  {
    var l, r := x + [""] + y, x + y;
    if |y| == 0 {
      assert l[..|x|] == x && l[|x|] == "" && r == x;
      assert Fold([], l, rooted) == Step(Fold([], x, rooted), "", rooted);
    } else {
      var n := |y| - 1;
      assert l[..|l| - 1] == x + [""] + y[..n] && l[|l| - 1] == y[n];
      assert r[..|r| - 1] == x + y[..n] && r[|r| - 1] == y[n];
      FoldDropsEmpty(x, y[..n], rooted);
    }
  }

  /** A doubled '/' after the first name under the root collapses to one, whatever clean path follows. */
  lemma CleanDoubleSlash(a: string, kept: seq<string>)
    requires PlainName(a) && |kept| > 0 && CleanSegs(kept, true)
    ensures Clean("/" + a + "//" + Join(kept, "/")) == "/" + a + "/" + Join(kept, "/")
  {
    var body := Join(kept, "/");
    var all := [a] + kept;
    assert CleanSegs(all, true);
    SplitJoin(kept, '/');
    SplitDoubleSlash(a, body);
    FoldRootName(a, kept);
    var p := "/" + a + "//" + body;
    assert p[0] == '/';
    assert Fold([], Split(p, '/'), true) == all;
    JoinAppend([a], kept, "/");
    assert Join([a], "/") == a;
    assert Clean(p) == "/" + (a + "/" + body);
    AppendAssoc3("/", a, "/", body);
  }

  /** Under the root, a name, an empty segment and a clean list fold to the name and the list. */
  lemma FoldRootName(a: string, kept: seq<string>)
    requires CleanSegs([a] + kept, true)
    ensures Fold([], [""] + [a] + [""] + kept, true) == [a] + kept
  {
    FoldDropsEmpty([""] + [a], kept, true);
    assert [""] + [a] + kept == [""] + ([a] + kept);
    FoldSkipsRoot([a] + kept, true);
  }

  lemma SplitDoubleSlash(a: string, body: string)
    requires PlainName(a)
    ensures Split("/" + a + "//" + body, '/') == [""] + [a] + [""] + Split(body, '/')
  {
    DoubleSlashRegroup(a, body);
    SplitRootedPath(a + "/" + ("/" + body));
    SplitConcat(a, "/" + body, '/');
    NoSepSplit(a, '/');
    SplitRootedPath(body);
  }
}
