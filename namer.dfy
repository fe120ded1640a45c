/**
 * The name-to-route transform of utils.go: `toNamer` turns an exported
 * controller method name into a lower-case, '/'-separated route name (with
 * `param`/`params` markers rewritten into parameter segments), and `fixURI`
 * strips the verb and joins the rest onto the controller's prefix.
 */
module Namer {
  import opened Strs
  import opened Paths
  import opened Wrappers

  /**
   * The common initialisms and their title-cased replacements, in the order
   * they are listed; an earlier key wins where two start at the same place.
   */
  const Initialisms: seq<(string, string)> := [
    ("API", "Api"), ("ASCII", "Ascii"), ("CPU", "Cpu"), ("CSS", "Css"), ("DNS", "Dns"),
    ("EOF", "Eof"), ("GUID", "Guid"), ("HTML", "Html"), ("HTTP", "Http"), ("HTTPS", "Https"),
    ("ID", "Id"), ("IP", "Ip"), ("JSON", "Json"), ("LHS", "Lhs"), ("QPS", "Qps"),
    ("RAM", "Ram"), ("RHS", "Rhs"), ("RPC", "Rpc"), ("SLA", "Sla"), ("SMTP", "Smtp"),
    ("SSH", "Ssh"), ("TLS", "Tls"), ("TTL", "Ttl"), ("UID", "Uid"), ("UI", "Ui"),
    ("UUID", "Uuid"), ("URI", "Uri"), ("URL", "Url"), ("UTF8", "Utf8"), ("VM", "Vm"),
    ("XML", "Xml"), ("XSRF", "Xsrf"), ("XSS", "Xss")]

  /** The rewrites applied to the lower-cased name: `_`, then `params`, then `param`. */
  const NameReps: seq<(string, string)> := [("_", "/:"), ("params", ":param?"), ("param", ":param")]

  /** The rewrite keys are non-empty and the replacements are lower case. */
  lemma NameRepsLower()
    ensures KeysNonEmpty(NameReps)
    ensures forall k :: 0 <= k < |NameReps| ==> NoUpper(NameReps[k].1)
  {
    assert NoUpper(NameReps[0].1) && NoUpper(NameReps[1].1) && NoUpper(NameReps[2].1);
  }

  /** Every initialism is at least two capitals long. */
  lemma InitialismKeys()
    ensures KeysNonEmpty(Initialisms)
    ensures forall k :: 0 <= k < |Initialisms| ==>
      |Initialisms[k].0| >= 2 && IsUpper(Initialisms[k].0[0]) && IsUpper(Initialisms[k].0[1])
    ensures forall k :: 0 <= k < |Initialisms| ==> Initialisms[k].1 != ""
  {
    InitialismCapitals();
    InitialismValues();
  }

  lemma InitialismCapitals()
    ensures forall k :: 0 <= k < |Initialisms| ==>
      |Initialisms[k].0| >= 2 && IsUpper(Initialisms[k].0[0]) && IsUpper(Initialisms[k].0[1])
  {
  }

  lemma InitialismValues()
    ensures forall k :: 0 <= k < |Initialisms| ==> Initialisms[k].1 != ""
  {
  }

  // ---------------------------------------------------------------------
  // The case-splitting loop

  /**
   * What the loop writes for position `i` (0 <= i <= |v|-2): a capital that
   * is not inside a run of capitals gets a '/' in front of it (unless a '/' is
   * already next to it), and a lower-case letter just before a final capital
   * gets a '/' after it.  `i == 1` counts as following a capital, since the
   * loop treats the first character as upper case.
   */
  function Emit(v: string, i: nat): string
    requires i + 1 < |v|
  {
    if i == 0 then [v[0]]
    else if IsUpper(v[i]) then
      if (i == 1 || IsUpper(v[i - 1])) && (IsUpper(v[i + 1]) || IsDigit(v[i + 1])) then [v[i]]
      else (if v[i - 1] != '/' && v[i + 1] != '/' then "/" else "") + [v[i]]
    else [v[i]] + (if i == |v| - 2 && IsUpper(v[i + 1]) then "/" else "")
  }

  /** What the loop has written after the first `n` positions. */
  function EmitUpTo(v: string, n: nat): string
    requires n < |v|
    decreases n
  {
    if n == 0 then "" else EmitUpTo(v, n - 1) + Emit(v, n - 1)
  }

  lemma EmitUpToSnoc(v: string, n: nat)
    requires n + 1 < |v|
    ensures EmitUpTo(v, n + 1) == EmitUpTo(v, n) + Emit(v, n)
  {
  }

  /** The buffer toNamer builds: every position but the last, then the last character. */
  function CaseSplit(v: string): string
  {
    if |v| == 0 then "" else EmitUpTo(v, |v| - 1) + [v[|v| - 1]]
  }

  lemma CaseSplitLast(v: string)
    requires v != ""
    ensures CaseSplit(v) == EmitUpTo(v, |v| - 1) + [v[|v| - 1]]
  {
  }

  /** The initialism replacer applied to a name. */
  function ReplaceInitialisms(s: string): string
  {
    InitialismKeys();
    Replace(s, Initialisms)
  }

  lemma InitialismsKeepNonEmpty(s: string)
    requires s != ""
    ensures ReplaceInitialisms(s) != ""
  {
    InitialismKeys();
    ReplaceNonEmpty(s, Initialisms);
  }

  /** toNamer(name). */
  function Namer(name: string): string
  {
    if name == "" then ""
    else Replace(ToLower(CaseSplit(ReplaceInitialisms(name))), NameReps)
  }

  /** toNamer: the initialisms, the case-splitting loop, then lower case and the rewrites. */
  method ToNamer(name: string) returns (s: string)
    ensures s == Namer(name)
  {
    if name == "" {
      return "";
    }
    var value := ReplaceInitialisms(name);
    InitialismsKeepNonEmpty(name);
    var buf := SplitCamel(value);
    buf := buf + [value[|value| - 1]];
    CaseSplitLast(value);
    s := ToLower(buf);
    s := Replace(s, NameReps);
    assert Namer(name) == Replace(ToLower(CaseSplit(value)), NameReps);
  }

  /** toNamer's loop with its look-behind and look-ahead flags, over every position but the last. */
  method SplitCamel(value: string) returns (buf: string)
    requires value != ""
    ensures buf == EmitUpTo(value, |value| - 1)
  {
    buf := "";
    var lastCase, currCase := false, false;
    for i := 0 to |value| - 1
      invariant buf == EmitUpTo(value, i)
      invariant i > 0 ==> currCase == IsUpper(value[i]) && lastCase == (i == 1 || IsUpper(value[i - 1]))
    {
      var nextCase;
      buf, currCase, nextCase := SplitCamelStep(value, i, buf, lastCase, currCase);
      EmitUpToSnoc(value, i);
      lastCase := currCase;
      currCase := nextCase;
    }
  }

  /** One pass of toNamer's loop: appends what position `i` emits and reads the next character's case. */
  method SplitCamelStep(value: string, i: nat, buf: string, lastCase: bool, currCase: bool)
    returns (buf': string, currCase': bool, nextCase: bool)
    requires i + 1 < |value|
    requires i > 0 ==> currCase == IsUpper(value[i]) && lastCase == (i == 1 || IsUpper(value[i - 1]))
    ensures buf' == buf + Emit(value, i)
    ensures currCase' == (i == 0 || IsUpper(value[i])) && nextCase == IsUpper(value[i + 1])
  {
    var v := value[i];
    nextCase := 'A' <= value[i + 1] <= 'Z';
    var nextNumber := '0' <= value[i + 1] <= '9';
    buf', currCase' := buf, currCase;
    if i > 0 {
      if currCase {
        if lastCase && (nextCase || nextNumber) {
          buf' := buf' + [v];
        } else {
          if value[i - 1] != '/' && value[i + 1] != '/' {
            buf' := buf' + "/";
          }
          buf' := buf' + [v];
          AppendAssoc(buf, "/", [v]);
          assert "" + [v] == [v];
        }
      } else {
        buf' := buf' + [v];
        if i == |value| - 2 && (nextCase && !nextNumber) {
          buf' := buf' + "/";
        }
        AppendAssoc(buf, [v], "/");
        assert [v] + "" == [v];
      }
    } else {
      currCase' := true;
      buf' := buf' + [v];
    }
  }

  // ---------------------------------------------------------------------
  // Replacer facts

  /** A replacer keeps a non-empty input non-empty when no replacement is empty. */
  lemma ReplaceNonEmpty(s: string, pairs: seq<(string, string)>)
    requires KeysNonEmpty(pairs) && s != ""
    requires forall k :: 0 <= k < |pairs| ==> pairs[k].1 != ""
    ensures Replace(s, pairs) != ""
  {
  }

  /** Replacing with upper-case-free replacements keeps an upper-case-free text so. */
  lemma {:induction false} ReplaceNoUpper(s: string, pairs: seq<(string, string)>)
    requires KeysNonEmpty(pairs) && NoUpper(s)
    requires forall k :: 0 <= k < |pairs| ==> NoUpper(pairs[k].1)
    ensures NoUpper(Replace(s, pairs))
    decreases |s|
  {
    if |s| > 0 {
      match FirstKey(s, pairs, 0)
      case Some(k) =>
        ReplaceNoUpper(s[|pairs[k].0|..], pairs);
      case None =>
        ReplaceNoUpper(s[1..], pairs);
    }
  }

  /** Where no key starts anywhere in `s`, the replacer changes nothing. */
  lemma {:induction false} ReplaceIdentity(s: string, pairs: seq<(string, string)>)
    requires KeysNonEmpty(pairs)
    requires forall i, k :: 0 <= i < |s| && 0 <= k < |pairs| ==> !HasPrefix(s[i..], pairs[k].0)
    ensures Replace(s, pairs) == s
    decreases |s|
  {
    if |s| > 0 {
      assert s[0..] == s;
      forall i, k | 0 <= i < |s| - 1 && 0 <= k < |pairs|
        ensures !HasPrefix(s[1..][i..], pairs[k].0)
      {
        assert s[1..][i..] == s[i + 1..];
      }
      ReplaceIdentity(s[1..], pairs);
    }
  }

  /** Keys of at least two capitals. */
  predicate TwoCapKeys(pairs: seq<(string, string)>)
  {
    forall k :: 0 <= k < |pairs| ==> |pairs[k].0| >= 2 && IsUpper(pairs[k].0[0]) && IsUpper(pairs[k].0[1])
  }

  /** A name without two capitals in a row contains no initialism. */
  lemma InitialismsFree(s: string)
    requires forall i :: 0 <= i < |s| - 1 ==> !(IsUpper(s[i]) && IsUpper(s[i + 1]))
    ensures ReplaceInitialisms(s) == s
  {
    InitialismKeys();
    NoCapPairNoKey(s, Initialisms);
  }

  lemma NoCapPairNoKey(s: string, pairs: seq<(string, string)>)
    requires KeysNonEmpty(pairs) && TwoCapKeys(pairs)
    requires forall i :: 0 <= i < |s| - 1 ==> !(IsUpper(s[i]) && IsUpper(s[i + 1]))
    ensures Replace(s, pairs) == s
  {
    forall i, k | 0 <= i < |s| && 0 <= k < |pairs|
      ensures !HasPrefix(s[i..], pairs[k].0)
    {
      var key := pairs[k].0;
      if |key| <= |s| - i {
        assert s[i..][..|key|][0] == s[i] && s[i..][..|key|][1] == s[i + 1];
      }
    }
    ReplaceIdentity(s, pairs);
  }

  // ---------------------------------------------------------------------
  // Properties of the transform

  /** The case split only inserts '/': removing every '/' gives back what it removed from the name. */
  function Unslash(s: string): string
    decreases |s|
  {
    if |s| == 0 then "" else Unslash(s[..|s| - 1]) + (if s[|s| - 1] == '/' then "" else [s[|s| - 1]])
  }

  lemma {:induction false} UnslashAppend(a: string, b: string)
    ensures Unslash(a + b) == Unslash(a) + Unslash(b)
    decreases |b|
  {
    if |b| == 0 {
      assert a + b == a;
    } else {
      assert (a + b)[..|a + b| - 1] == a + b[..|b| - 1];
      UnslashAppend(a, b[..|b| - 1]);
    }
  }

  /** An empty or one-'/' separator on either side of a piece vanishes under Unslash. */
  lemma UnslashSep(sep: string, c: string)
    requires sep == "" || sep == "/"
    ensures Unslash(sep + c) == Unslash(c) && Unslash(c + sep) == Unslash(c)
  {
    assert Unslash(sep) == "" by {
      if sep == "/" {
        assert sep[..0] == "";
      }
    }
    UnslashAppend(sep, c);
    UnslashAppend(c, sep);
  }

  lemma EmitUnslash(v: string, i: nat)
    requires i + 1 < |v|
    ensures Unslash(Emit(v, i)) == Unslash([v[i]])
  {
    var c := [v[i]];
    if i > 0 && IsUpper(v[i]) {
      if !((i == 1 || IsUpper(v[i - 1])) && (IsUpper(v[i + 1]) || IsDigit(v[i + 1]))) {
        var sep := if v[i - 1] != '/' && v[i + 1] != '/' then "/" else "";
        assert Emit(v, i) == sep + c;
        UnslashSep(sep, c);
      }
    } else if i > 0 {
      var sep := if i == |v| - 2 && IsUpper(v[i + 1]) then "/" else "";
      assert Emit(v, i) == c + sep;
      UnslashSep(sep, c);
    }
  }

  lemma {:induction false} EmitUpToUnslash(v: string, n: nat)
    requires n < |v|
    ensures Unslash(EmitUpTo(v, n)) == Unslash(v[..n])
    decreases n
  {
    if n > 0 {
      var m := n - 1;
      EmitUpToUnslash(v, m);
      EmitUpToSnoc(v, m);
      UnslashAppend(EmitUpTo(v, m), Emit(v, m));
      EmitUnslash(v, m);
      TakeSnoc(v, m);
      UnslashAppend(v[..m], [v[m]]);
    }
  }

  /** The case split changes nothing but the placement of '/'. */
  lemma CaseSplitOnlyInsertsSlashes(v: string)
    ensures Unslash(CaseSplit(v)) == Unslash(v)
  {
    if |v| > 0 {
      CaseSplitLast(v);
      SplitUnslash(v);
    }
  }

  /** The loop's output followed by the last character has the letters of the whole name. */
  lemma SplitUnslash(v: string)
    requires |v| > 0
    ensures Unslash(EmitUpTo(v, |v| - 1) + [v[|v| - 1]]) == Unslash(v)
  {
    var n := |v| - 1;
    EmitUpToUnslash(v, n);
    UnslashAppend(EmitUpTo(v, n), [v[n]]);
    UnslashAppend(v[..n], [v[n]]);
    SplitLast(v);
  }

  /** A name with no capitals is left as it is by the case split. */
  lemma {:induction false} CaseSplitNoUpper(v: string)
    requires NoUpper(v)
    ensures CaseSplit(v) == v
  {
    if |v| > 0 {
      CaseSplitLast(v);
      EmitUpToNoUpper(v, |v| - 1);
      SplitLast(v);
    }
  }

  lemma {:induction false} EmitUpToNoUpper(v: string, n: nat)
    requires NoUpper(v) && n < |v|
    ensures EmitUpTo(v, n) == v[..n]
    decreases n
  {
    if n > 0 {
      EmitUpToNoUpper(v, n - 1);
      EmitPlain(v, n - 1);
      assert v[..n] == v[..n - 1] + [v[n - 1]];
    }
  }

  /** A position that is not a capital, followed by one that is not either, is copied alone. */
  lemma EmitPlain(v: string, i: nat)
    requires NoUpper(v) && i + 1 < |v|
    ensures Emit(v, i) == [v[i]]
  {
    assert !IsUpper(v[i]) && !IsUpper(v[i + 1]);
  }

  /**
   * A camel-case name: a capital first, no '/', and every capital followed by
   * a character that is not a capital.
   */
  predicate Camel(v: string)
  {
    |v| >= 2 && IsUpper(v[0]) && '/' !in v
    && forall i :: 0 <= i < |v| && IsUpper(v[i]) ==> i + 1 < |v| && !IsUpper(v[i + 1])
  }

  /** `v` with a '/' in front of every capital except the first character. */
  function Slashed(v: string): string
    decreases |v|
  {
    if |v| == 0 then ""
    else Slashed(v[..|v| - 1]) + (if |v| > 1 && IsUpper(v[|v| - 1]) then "/" else "") + [v[|v| - 1]]
  }

  lemma {:induction false} EmitUpToCamel(v: string, n: nat)
    requires Camel(v) && n < |v|
    ensures EmitUpTo(v, n) == Slashed(v[..n])
    decreases n
  {
    if n > 0 {
      EmitUpToCamel(v, n - 1);
      var i := n - 1;
      assert v[..n][..i] == v[..i];
      if i > 0 && IsUpper(v[i]) {
        assert !IsUpper(v[i - 1]);
        assert i != 1;
        assert !IsUpper(v[i + 1]);
        assert v[i - 1] != '/' && v[i + 1] != '/';
      } else if i > 0 && i == |v| - 2 {
        assert !IsUpper(v[i + 1]);
      }
    }
  }

  /** On a camel-case name, the case split puts a '/' in front of every word but the first. */
  lemma CaseSplitCamel(v: string)
    requires Camel(v)
    ensures CaseSplit(v) == Slashed(v)
  {
    var n := |v| - 1;
    var init := v[..n];
    TakeSnoc(v, n);
    TakeAll(v);
    EmitUpToCamel(v, n);
    assert !IsUpper(v[n]);
    assert Slashed(v) == Slashed(init) + "" + [v[n]];
    assert Slashed(init) + "" == Slashed(init);
  }

  /** Whatever the name, the route name carries no capital letter. */
  lemma NamerNoUpper(name: string)
    ensures NoUpper(Namer(name))
  {
    if name != "" {
      var split := CaseSplit(ReplaceInitialisms(name));
      LowerHasNoUpper(split);
      NameRepsLower();
      ReplaceNoUpper(ToLower(split), NameReps);
    }
  }

  /** Every '_' of the lower-cased name is rewritten, so none is left. */
  lemma {:induction false} RepsRemoveUnderscore(s: string)
    ensures '_' !in Replace(s, NameReps)
    decreases |s|
  {
    if |s| > 0 {
      match FirstKey(s, NameReps, 0)
      case Some(k) =>
        RepsRemoveUnderscore(s[|NameReps[k].0|..]);
      case None =>
        assert !HasPrefix(s, "_");
        assert s[..1] == [s[0]];
        RepsRemoveUnderscore(s[1..]);
    }
  }

  lemma NamerNoUnderscore(name: string)
    ensures '_' !in Namer(name)
  {
    if name != "" {
      RepsRemoveUnderscore(ToLower(CaseSplit(ReplaceInitialisms(name))));
    }
  }

  // ---------------------------------------------------------------------
  // fixURI

  /** fixURI(pre, src, tag): strip leading cutset characters, join onto the prefix, "/" if empty. */
  function FixURI(pre: string, src: string, tag: string): (uri: string)
    ensures uri != ""
    ensures pre != "" && pre[0] == '/' ==> uri[0] == '/'
    ensures Clean(uri) == uri
  {
    var rest := TrimLeft(src, tag);
    var joined := Join2(pre, rest);
    FixURIShape(pre, rest);
    if |joined| == 0 then "/" else joined
  }

  lemma FixURIShape(pre: string, rest: string)
    ensures var j := Join2(pre, rest);
      (j == "" ==> Clean("/") == "/")
      && (j != "" ==> Clean(j) == j)
      && (pre != "" && pre[0] == '/' ==> j != "" && j[0] == '/')
  {
    CleanRoot();
    Join2Empty(pre, rest);
    if pre != "" {
      CleanIdempotent(pre + "/" + rest);
      CleanShape(pre + "/" + rest);
    } else if rest != "" {
      CleanIdempotent(rest);
    }
  }

  // ---------------------------------------------------------------------
  // Route names of the documented example controller (prefix "/api")

  /** Adding a capitalised word adds a '/' and the word. */
  lemma {:induction false} SlashedWord(a: string, w: string)
    requires |a| > 0 && |w| > 0 && IsUpper(w[0]) && NoUpper(w[1..])
    ensures Slashed(a + w) == Slashed(a) + "/" + w
    decreases |w|
  {
    if |w| == 1 {
      assert (a + w)[..|a + w| - 1] == a;
    } else {
      var w' := w[..|w| - 1];
      assert (a + w)[..|a + w| - 1] == a + w';
      assert w'[1..] == w[1..][..|w| - 2];
      SlashedWord(a, w');
      assert !IsUpper(w[|w| - 1]) by {
        assert w[|w| - 1] == w[1..][|w| - 2];
      }
    }
  }

  /** A single capitalised word is left alone. */
  lemma {:induction false} SlashedFirstWord(w: string)
    requires |w| > 0 && NoUpper(w[1..])
    ensures Slashed(w) == w
    decreases |w|
  {
    if |w| > 1 {
      var w' := w[..|w| - 1];
      assert w'[1..] == w[1..][..|w| - 2];
      SlashedFirstWord(w');
      assert w[|w| - 1] == w[1..][|w| - 2];
    }
  }

  /** Two camel-case words become "first/second" before lower-casing. */
  lemma TwoWords(a: string, b: string)
    requires |a| >= 2 && |b| >= 2 && IsUpper(a[0]) && IsUpper(b[0])
    requires NoUpper(a[1..]) && NoUpper(b[1..]) && '/' !in a && '/' !in b
    ensures CaseSplit(a + b) == a + "/" + b
    ensures ReplaceInitialisms(a + b) == a + b
  {
    var v := a + b;
    forall j | 1 <= j < |v| && j != |a|
      ensures !IsUpper(v[j])
    {
      if j < |a| {
        assert v[j] == a[1..][j - 1];
      } else {
        assert v[j] == b[1..][j - |a| - 1];
      }
    }
    assert Camel(v);
    CaseSplitCamel(v);
    SlashedFirstWord(a);
    SlashedWord(a, b);
    InitialismsFree(v);
  }

  /** No key of the name rewrites starts with a character of `s`. */
  lemma RepsAbsent(s: string)
    requires '_' !in s && 'p' !in s
    ensures Replace(s, NameReps) == s
  {
    forall i, k | 0 <= i < |s| && 0 <= k < |NameReps|
      ensures !HasPrefix(s[i..], NameReps[k].0)
    {
      var key := NameReps[k].0;
      assert key[0] == '_' || key[0] == 'p';
      if |key| <= |s| - i {
        assert s[i..][..|key|][0] == s[i];
      }
    }
    ReplaceIdentity(s, NameReps);
  }

  /** A stretch in which no key starts is copied through unchanged. */
  lemma {:induction false} ReplaceCopies(a: string, b: string, pairs: seq<(string, string)>)
    requires KeysNonEmpty(pairs)
    requires forall i, k :: 0 <= i < |a| && 0 <= k < |pairs| ==> !HasPrefix((a + b)[i..], pairs[k].0)
    ensures Replace(a + b, pairs) == a + Replace(b, pairs)
    decreases |a|
  {
    if |a| > 0 {
      assert (a + b)[0..] == a + b;
      assert (a + b)[1..] == a[1..] + b;
      forall i, k | 0 <= i < |a| - 1 && 0 <= k < |pairs|
        ensures !HasPrefix((a[1..] + b)[i..], pairs[k].0)
      {
        assert (a[1..] + b)[i..] == (a + b)[i + 1..];
      }
      ReplaceCopies(a[1..], b, pairs);
    } else {
      assert a + b == b;
    }
  }

  /** No occurrence of "param" starts anywhere in `v`. */
  predicate NoParamIn(v: string)
  {
    forall j :: 0 <= j < |v| ==> !HasPrefix(v[j..], "param")
  }

  /** Both parameter keys of the name rewrites start with "param". */
  lemma ParamKeys(k: nat)
    requires 0 < k < |NameReps|
    ensures |NameReps[k].0| >= 5 && NameReps[k].0[..5] == "param"
  {
  }

  /** A verb without '_' and without "param" holds no key of the name rewrites. */
  lemma VerbAbsent(v: string)
    requires '_' !in v && NoParamIn(v)
    ensures Replace(v, NameReps) == v
  {
    forall i, k | 0 <= i < |v| && 0 <= k < |NameReps|
      ensures !HasPrefix(v[i..], NameReps[k].0)
    {
      var key := NameReps[k].0;
      var t := v[i..];
      if |key| <= |t| {
        if k == 0 {
          assert t[..|key|][0] == v[i];
        } else {
          ParamKeys(k);
          assert t[..|key|][..5] == t[..5];
        }
      }
    }
    ReplaceIdentity(v, NameReps);
  }

  /** The verb and the '/' after it are copied through whatever follows them. */
  lemma VerbCopied(verb: string, rest: string)
    requires '_' !in verb && '/' !in verb && NoParamIn(verb)
    ensures Replace(verb + "/" + rest, NameReps) == verb + "/" + Replace(rest, NameReps)
  {
    var a := verb + "/";
    assert verb + "/" + rest == a + rest;
    forall i, k | 0 <= i < |a| && 0 <= k < |NameReps|
      ensures !HasPrefix((a + rest)[i..], NameReps[k].0)
    {
      var key := NameReps[k].0;
      var t := (a + rest)[i..];
      if |key| <= |t| {
        if k == 0 {
          assert t[..|key|][0] == a[i];
        } else {
          ParamKeys(k);
          if i + 5 <= |verb| {
            assert t[..5] == verb[i..][..5];
          } else {
            // the '/' after the verb falls inside the key
            var d := |verb| - i;
            assert t[d] == a[|verb|] == '/';
            assert key[..5][d] == key[d];
            assert t[..|key|][d] == t[d];
          }
          assert t[..|key|][..5] == t[..5];
        }
      }
    }
    ReplaceCopies(a, rest, NameReps);
  }

  lemma ParamMarker()
    ensures Replace("param", NameReps) == ":param"
    ensures Replace("params", NameReps) == ":param?"
  {
    RequiredMarker();
    OptionalMarker();
  }

  /** "param" matches only the last rewrite key. */
  lemma RequiredMarker()
    ensures Replace("param", NameReps) == ":param"
  {
    var w := "param";
    assert w[0] == 'p' && "_"[0] == '_';
    assert w[..1][0] != "_"[0];
    assert |w| < |"params"|;
    assert w[..5] == "param";
    assert FirstKey(w, NameReps, 0) == Some(2);
    assert w[|NameReps[2].0|..] == "";
  }

  /** "params" matches the second rewrite key, listed before "param". */
  lemma OptionalMarker()
    ensures Replace("params", NameReps) == ":param?"
  {
    var w := "params";
    assert w[0] == 'p' && "_"[0] == '_';
    assert w[..1][0] != "_"[0];
    assert w[..6] == "params";
    assert FirstKey(w, NameReps, 0) == Some(1);
    assert w[|NameReps[1].0|..] == "";
  }

  /**
   * A capitalised word of a method name: an upper-case letter followed by
   * letters that are not upper-case, with no '/', '_' or 'p' in it (so no key
   * of the name rewrites can start inside it once lower-cased).
   */
  predicate PlainWord(w: string)
  {
    |w| >= 2 && IsUpper(w[0]) && NoUpper(w[1..]) && '/' !in w && '_' !in w && 'p' !in w && 'P' !in w
  }

  lemma LowerConcat(a: string, b: string)
    ensures ToLower(a + b) == ToLower(a) + ToLower(b)
  {
  }

  /** Lower-casing a plain word keeps it a plain path name free of rewrite keys. */
  lemma LowerPlainWord(w: string)
    requires PlainWord(w)
    ensures '/' !in ToLower(w) && '_' !in ToLower(w) && 'p' !in ToLower(w)
    ensures PlainName(ToLower(w))
  {
    var l := ToLower(w);
    forall i | 0 <= i < |l|
      ensures l[i] != '/' && l[i] != '_' && l[i] != 'p'
    {
      assert l[i] == LowerChar(w[i]);
      assert w[i] != 'P' && w[i] != 'p';
    }
    assert l[0] == LowerChar(w[0]) != '.';
  }

  lemma LowerAround(a: string, b: string)
    ensures ToLower(a + "/" + b) == ToLower(a) + "/" + ToLower(b)
  {
    LowerConcat(a + "/", b);
    LowerConcat(a, "/");
  }

  lemma LowerParams()
    ensures ToLower("Param") == "param"
    ensures ToLower("Params") == "params"
  {
  }

  /**
   * A verb at the head of a method name (`Get`, `Post`, `Patch`): a capitalised
   * word with no '/' or '_' whose lower-cased form holds no "param", so that
   * the name rewrites leave it alone.
   */
  predicate VerbWord(w: string)
  {
    |w| >= 2 && IsUpper(w[0]) && NoUpper(w[1..]) && '/' !in w && '_' !in w && NoParamIn(ToLower(w))
  }

  /** Lower-casing a verb keeps it a plain path name that the name rewrites copy through. */
  lemma LowerVerbWord(w: string)
    requires VerbWord(w)
    ensures '/' !in ToLower(w) && '_' !in ToLower(w) && NoParamIn(ToLower(w))
    ensures PlainName(ToLower(w))
  {
    var l := ToLower(w);
    forall i | 0 <= i < |l|
      ensures l[i] != '/' && l[i] != '_'
    {
      assert l[i] == LowerChar(w[i]);
    }
    assert l[0] == LowerChar(w[0]) != '.';
  }

  /** A one-word method name (`Get`) is routed at the verb itself. */
  lemma NamerOneWord(w: string)
    requires VerbWord(w)
    ensures Namer(w) == ToLower(w)
  {
    InitialismsFree(w);
    assert Camel(w);
    CaseSplitCamel(w);
    SlashedFirstWord(w);
    LowerVerbWord(w);
    VerbAbsent(ToLower(w));
  }

  /** The route name of a two-word camel-case method name. */
  lemma NamerTwoWords(a: string, b: string)
    requires |a| >= 2 && |b| >= 2 && IsUpper(a[0]) && IsUpper(b[0])
    requires NoUpper(a[1..]) && NoUpper(b[1..]) && '/' !in a && '/' !in b
    ensures Namer(a + b) == Replace(ToLower(a + "/" + b), NameReps)
  {
    TwoWords(a, b);
  }

  /** `GetAuthorize`: a verb and a plain word become "get/authorize". */
  lemma NamerVerbWord(verb: string, word: string)
    requires VerbWord(verb) && PlainWord(word)
    ensures Namer(verb + word) == ToLower(verb) + "/" + ToLower(word)
  {
    NamerTwoWords(verb, word);
    LowerAround(verb, word);
    LowerVerbWord(verb);
    LowerPlainWord(word);
    VerbCopied(ToLower(verb), ToLower(word));
    RepsAbsent(ToLower(word));
  }

  /** A verb followed by a capitalised word, before the name rewrites. */
  lemma LoweredPair(verb: string, word: string)
    requires VerbWord(verb)
    requires |word| >= 2 && IsUpper(word[0]) && NoUpper(word[1..]) && '/' !in word
    ensures Namer(verb + word) == Replace(ToLower(verb) + "/" + ToLower(word), NameReps)
  {
    NamerTwoWords(verb, word);
    LowerAround(verb, word);
  }

  /** The markers spelled as a separator and a rewritten word. */
  lemma MarkerLiterals()
    ensures "/" + ":param" == "/:param" && "/" + ":param?" == "/:param?"
  {
  }

  /** Both markers are single path segments. */
  lemma MarkerNames()
    ensures PlainName(":param") && PlainName(":param?")
  {
  }

  /** The parameter words after a lower-cased verb become markers. */
  lemma MarkParam(v: string)
    requires '_' !in v && '/' !in v && NoParamIn(v)
    ensures Replace(v + "/" + "param", NameReps) == v + "/:param"
    ensures Replace(v + "/" + "params", NameReps) == v + "/:param?"
  {
    VerbCopied(v, "param");
    VerbCopied(v, "params");
    ParamMarker();
    MarkerLiterals();
    AppendAssoc(v, "/", ":param");
    AppendAssoc(v, "/", ":param?");
  }

  /** `PostParam`: a trailing `Param` becomes a required parameter. */
  lemma NamerVerbParam(verb: string)
    requires VerbWord(verb)
    ensures Namer(verb + "Param") == ToLower(verb) + "/:param"
  {
    LoweredPair(verb, "Param");
    LowerParams();
    LowerVerbWord(verb);
    MarkParam(ToLower(verb));
  }

  /** `PutParams`: a trailing `Params` becomes an optional parameter. */
  lemma NamerVerbParams(verb: string)
    requires VerbWord(verb)
    ensures Namer(verb + "Params") == ToLower(verb) + "/:param?"
  {
    LoweredPair(verb, "Params");
    LowerParams();
    LowerVerbWord(verb);
    MarkParam(ToLower(verb));
  }

  /** The verb's own name, stripped as a cutset, leaves `rest` when `rest` starts with '/'. */
  lemma TrimVerb(verb: string, rest: string)
    requires VerbWord(verb)
    requires rest == "" || rest[0] == '/'
    ensures TrimLeft(ToLower(verb) + rest, ToLower(verb)) == rest
  {
    LowerVerbWord(verb);
    var v := ToLower(verb);
    forall i | 0 <= i < |v|
      ensures v[i] in v
    {
    }
    TrimLeftRun(v, rest, v);
  }

  /** Under a prefix "/api", `Get` is routed at the prefix itself. */
  lemma RouteOneWord(api: string, verb: string)
    requires PlainName(api) && VerbWord(verb)
    ensures FixURI("/" + api, Namer(verb), ToLower(verb)) == "/" + api
  {
    NamerOneWord(verb);
    TrimVerb(verb, "");
    assert ToLower(verb) + "" == ToLower(verb);
    assert "/" + api + "/" + "" == "/" + api + "/";
    CleanOneName(api);
  }

  /** The name after the verb is joined onto the prefix with one '/'. */
  lemma RouteJoin(api: string, verb: string, name: string)
    requires PlainName(api) && PlainName(name) && VerbWord(verb)
    ensures FixURI("/" + api, ToLower(verb) + "/" + name, ToLower(verb)) == "/" + api + "/" + name
  {
    TrimVerb(verb, "/" + name);
    assert ToLower(verb) + "/" + name == ToLower(verb) + ("/" + name);
    assert "/" + api + "/" + ("/" + name) == "/" + api + "//" + name;
    CleanTwoNames(api, name);
  }

  /** Under "/api", `GetAuthorize` is routed at "/api/authorize". */
  lemma RouteVerbWord(api: string, verb: string, word: string)
    requires PlainName(api) && VerbWord(verb) && PlainWord(word)
    ensures FixURI("/" + api, Namer(verb + word), ToLower(verb)) == "/" + api + "/" + ToLower(word)
  {
    NamerVerbWord(verb, word);
    LowerPlainWord(word);
    RouteJoin(api, verb, ToLower(word));
  }

  /** Three camel-case words become "first/second/third" before lower-casing. */
  lemma ThreeWords(a: string, b: string, c: string)
    requires |a| >= 2 && |b| >= 2 && |c| >= 2 && IsUpper(a[0]) && IsUpper(b[0]) && IsUpper(c[0])
    requires NoUpper(a[1..]) && NoUpper(b[1..]) && NoUpper(c[1..]) && '/' !in a && '/' !in b && '/' !in c
    ensures CaseSplit(a + b + c) == a + "/" + b + "/" + c
    ensures ReplaceInitialisms(a + b + c) == a + b + c
  {
    var v := a + b + c;
    forall j | 1 <= j < |v| && j != |a| && j != |a| + |b|
      ensures !IsUpper(v[j])
    {
      if j < |a| {
        assert v[j] == a[1..][j - 1];
      } else if j < |a| + |b| {
        assert v[j] == b[1..][j - |a| - 1];
      } else {
        assert v[j] == c[1..][j - |a| - |b| - 1];
      }
    }
    assert Camel(v);
    CaseSplitCamel(v);
    SlashedFirstWord(a);
    SlashedWord(a, b);
    SlashedWord(a + b, c);
    InitialismsFree(v);
  }

  /** Lower-casing three '/'-separated words, grouped for the rewrites. */
  lemma LowerThree(a: string, b: string, c: string)
    ensures ToLower(a + "/" + b + "/" + c) == ToLower(a) + "/" + (ToLower(b) + "/" + ToLower(c))
  {
    LowerAround(a + "/" + b, c);
    LowerAround(a, b);
    AppendAssoc3(ToLower(a), "/", ToLower(b), "/" + ToLower(c));
  }

  /** A verb followed by two capitalised words, before the name rewrites. */
  lemma LoweredTriple(verb: string, w1: string, w2: string)
    requires VerbWord(verb) && PlainWord(w1) && PlainWord(w2)
    ensures Namer(verb + w1 + w2) == Replace(ToLower(verb) + "/" + (ToLower(w1) + "/" + ToLower(w2)), NameReps)
  {
    ThreeWords(verb, w1, w2);
    LowerThree(verb, w1, w2);
  }

  /** `GetUserInfo`: a verb and two plain words become "get/user/info". */
  lemma NamerVerbTwoWords(verb: string, w1: string, w2: string)
    requires VerbWord(verb) && PlainWord(w1) && PlainWord(w2)
    ensures Namer(verb + w1 + w2) == ToLower(verb) + "/" + (ToLower(w1) + "/" + ToLower(w2))
  {
    LoweredTriple(verb, w1, w2);
    LowerVerbWord(verb);
    LowerPlainWord(w1);
    LowerPlainWord(w2);
    var rest := ToLower(w1) + "/" + ToLower(w2);
    VerbCopied(ToLower(verb), rest);
    RepsAbsent(rest);
  }

  /** Under "/api", `GetUserInfo` is routed at "/api/user/info". */
  lemma RouteVerbTwoWords(api: string, verb: string, w1: string, w2: string)
    requires PlainName(api) && VerbWord(verb) && PlainWord(w1) && PlainWord(w2)
    ensures FixURI("/" + api, Namer(verb + w1 + w2), ToLower(verb))
            == "/" + api + "/" + (ToLower(w1) + "/" + ToLower(w2))
  {
    NamerVerbTwoWords(verb, w1, w2);
    LowerPlainWord(w1);
    LowerPlainWord(w2);
    RouteJoinTwo(api, verb, ToLower(w1), ToLower(w2));
  }

  /** Two names after the verb are joined onto the prefix, one '/' apart. */
  lemma RouteJoinTwo(api: string, verb: string, l1: string, l2: string)
    requires PlainName(api) && VerbWord(verb) && PlainName(l1) && PlainName(l2)
    ensures FixURI("/" + api, ToLower(verb) + "/" + (l1 + "/" + l2), ToLower(verb))
            == "/" + api + "/" + (l1 + "/" + l2)
  {
    var v := ToLower(verb);
    var rest := l1 + "/" + l2;
    AppendAssoc(v, "/", rest);
    TrimVerb(verb, "/" + rest);
    DoubleSlashJoin(api, rest);
    JoinTwoNames(l1, l2);
    CleanDoubleSlash(api, [l1, l2]);
  }

  /** Two plain names are a clean rooted path body. */
  lemma JoinTwoNames(l1: string, l2: string)
    requires PlainName(l1) && PlainName(l2)
    ensures Join([l1, l2], "/") == l1 + "/" + l2
    ensures CleanSegs([l1, l2], true)
  {
    var kept := [l1, l2];
    assert kept[..1] == [l1];
  }

  lemma DoubleSlashJoin(api: string, rest: string)
    ensures "/" + api + "/" + ("/" + rest) == "/" + api + "//" + rest
  {
    AppendAssoc("/" + api + "/", "/", rest);
    AppendAssoc("/" + api, "/", "/");
  }

  /** The words of `GetUserInfo`. */
  lemma UserInfoWords()
    ensures VerbWord("Get") && PlainWord("User") && PlainWord("Info")
    ensures ToLower("Get") == "get" && ToLower("User") == "user" && ToLower("Info") == "info"
  {
  }

  lemma UserInfoLiterals()
    ensures "/" + "api" == "/api"
    ensures "/" + "api" + "/" + ("user" + "/" + "info") == "/api/user/info"
  {
  }

  /** Under "/api", the documented `GetUserInfo` is routed at "/api/user/info". */
  lemma UserInfoRoute(verb: string, w1: string, w2: string)
    requires verb == "Get" && w1 == "User" && w2 == "Info"
    ensures FixURI("/api", Namer(verb + w1 + w2), "get") == "/api/user/info"
  {
    UserInfoWords();
    RouteVerbTwoWords("api", verb, w1, w2);
    UserInfoLiterals();
  }

  /** Under "/api", `PostParam` is routed at "/api/:param". */
  lemma RouteVerbParam(api: string, verb: string)
    requires PlainName(api) && VerbWord(verb)
    ensures FixURI("/" + api, Namer(verb + "Param"), ToLower(verb)) == "/" + api + "/:param"
  {
    NamerVerbParam(verb);
    var v := ToLower(verb);
    MarkerLiterals();
    MarkerNames();
    AppendAssoc(v, "/", ":param");
    RouteJoin(api, verb, ":param");
    AppendAssoc("/" + api, "/", ":param");
  }

  /** Under "/api", `PutParams` is routed at "/api/:param?". */
  lemma RouteVerbParams(api: string, verb: string)
    requires PlainName(api) && VerbWord(verb)
    ensures FixURI("/" + api, Namer(verb + "Params"), ToLower(verb)) == "/" + api + "/:param?"
  {
    NamerVerbParams(verb);
    var v := ToLower(verb);
    MarkerLiterals();
    MarkerNames();
    AppendAssoc(v, "/", ":param?");
    RouteJoin(api, verb, ":param?");
    AppendAssoc("/" + api, "/", ":param?");
  }

  /** "Post", "Put" and "Patch" are verbs: "patch" holds "pa" but no "param". */
  lemma Verbs()
    ensures VerbWord("Post") && VerbWord("Put") && VerbWord("Patch")
    ensures ToLower("Post") == "post" && ToLower("Put") == "put" && ToLower("Patch") == "patch"
  {
    assert ToLower("Patch") == "patch";
    assert forall j :: 0 <= j < 5 ==> !HasPrefix("patch"[j..], "param") by {
      forall j | 0 <= j < 5
        ensures !HasPrefix("patch"[j..], "param")
      {
        if j == 0 {
          assert "patch"[..5][2] == 't';
        }
      }
    }
  }

  lemma ApiLiterals()
    ensures "/" + "api" == "/api"
    ensures "/" + "api" + "/:param" == "/api/:param" && "/" + "api" + "/:param?" == "/api/:param?"
  {
  }

  /** Under "/api", `PostParam` is routed at "/api/:param". */
  lemma PostParamRoute(verb: string)
    requires verb == "Post"
    ensures FixURI("/api", Namer(verb + "Param"), "post") == "/api/:param"
  {
    Verbs();
    RouteVerbParam("api", verb);
    ApiLiterals();
  }

  /** Under "/api", `PutParams` is routed at "/api/:param?". */
  lemma PutParamsRoute(verb: string)
    requires verb == "Put"
    ensures FixURI("/api", Namer(verb + "Params"), "put") == "/api/:param?"
  {
    Verbs();
    RouteVerbParams("api", verb);
    ApiLiterals();
  }

  /** Under "/api", `PatchParam` is routed at "/api/:param". */
  lemma PatchParamRoute(verb: string)
    requires verb == "Patch"
    ensures FixURI("/api", Namer(verb + "Param"), "patch") == "/api/:param"
  {
    Verbs();
    RouteVerbParam("api", verb);
    ApiLiterals();
  }

  /** The verb is a character set: a method named `Gettext` is routed at "/api/xt". */
  lemma VerbIsCutset()
    ensures FixURI("/api", "gettext", "get") == "/api/xt"
  {
    assert TrimLeft("gettext", "get") == "xt";
    assert "/api" + "/" + "xt" == "/api/xt";
    CleanApiXt();
  }

  lemma CleanApiXt()
    ensures Clean("/api/xt") == "/api/xt"
  {
    var kept := ["api", "xt"];
    assert CleanSegs(kept, true);
    CleanRooted(kept);
    assert Join(kept, "/") == "api/xt" by {
      assert kept[..1] == ["api"];
    }
    assert "/" + Join(kept, "/") == "/api/xt";
  }
}
