/**
 * The parts of Go's `strings` package that the router relies on, written as
 * total functions over `string` (= `seq<char>`).  Case mapping is ASCII only.
 */
module Strs {
  import opened Wrappers

  predicate IsUpper(c: char) { 'A' <= c <= 'Z' }

  predicate IsDigit(c: char) { '0' <= c <= '9' }

  function LowerChar(c: char): char
  {
    if IsUpper(c) then (c as int + 32) as char else c
  }

  function UpperChar(c: char): char
  {
    if 'a' <= c <= 'z' then (c as int - 32) as char else c
  }

  /** strings.ToLower, restricted to ASCII letters. */
  function ToLower(s: string): string
  {
    seq(|s|, i requires 0 <= i < |s| => LowerChar(s[i]))
  }

  /** strings.ToUpper, restricted to ASCII letters. */
  function ToUpper(s: string): string
  {
    seq(|s|, i requires 0 <= i < |s| => UpperChar(s[i]))
  }

  /** No ASCII upper-case letter occurs in `s`. */
  predicate NoUpper(s: string)
  {
    forall i :: 0 <= i < |s| ==> !IsUpper(s[i])
  }

  predicate HasPrefix(s: string, p: string)
  {
    |p| <= |s| && s[..|p|] == p
  }

  predicate HasSuffix(s: string, p: string)
  {
    |p| <= |s| && s[|s| - |p|..] == p
  }

  /** Number of occurrences of `c` in `s`. */
  function Count(s: string, c: char): nat
    decreases |s|
  {
    if |s| == 0 then 0
    else Count(s[..|s| - 1], c) + (if s[|s| - 1] == c then 1 else 0)
  }

  /**
   * strings.Split with a one-character separator.  Defined from the right end
   * so that it follows a left-to-right scan: the last character either closes
   * the current piece (a separator) or extends it.
   */
  function Split(s: string, sep: char): (parts: seq<string>)
    ensures |parts| >= 1
    decreases |s|
  {
    if |s| == 0 then [""]
    else
      var init := Split(s[..|s| - 1], sep);
      var ch := s[|s| - 1];
      if ch == sep then init + [""]
      else init[..|init| - 1] + [init[|init| - 1] + [ch]]
  }

  /** strings.Join. */
  function Join(parts: seq<string>, sep: string): string
    decreases |parts|
  {
    if |parts| == 0 then ""
    else if |parts| == 1 then parts[0]
    else Join(parts[..|parts| - 1], sep) + sep + parts[|parts| - 1]
  }

  /** The in-order concatenation of `parts`. */
  function Concat(parts: seq<string>): string
    decreases |parts|
  {
    if |parts| == 0 then "" else Concat(parts[..|parts| - 1]) + parts[|parts| - 1]
  }

  /** strings.TrimLeft: `cutset` is a set of characters, not a prefix. */
  function TrimLeft(s: string, cutset: string): string
    decreases |s|
  {
    if |s| > 0 && s[0] in cutset then TrimLeft(s[1..], cutset) else s
  }

  /** strings.TrimRight with a one-character cutset. */
  function TrimRight(s: string, c: char): string
    decreases |s|
  {
    if |s| > 0 && s[|s| - 1] == c then TrimRight(s[..|s| - 1], c) else s
  }

  /** unicode.IsSpace. */
  predicate IsSpace(c: char)
  {
    c == ' ' || c == '\t' || c == '\n' || c == '\r' || c == '\U{000B}' || c == '\U{000C}'
    || c == '\U{0085}' || c == '\U{00A0}' || c == '\U{1680}' || ('\U{2000}' <= c <= '\U{200A}')
    || c == '\U{2028}' || c == '\U{2029}' || c == '\U{202F}' || c == '\U{205F}' || c == '\U{3000}'
  }

  function TrimLeftSpace(s: string): string
    decreases |s|
  {
    if |s| > 0 && IsSpace(s[0]) then TrimLeftSpace(s[1..]) else s
  }

  function TrimRightSpace(s: string): string
    decreases |s|
  {
    if |s| > 0 && IsSpace(s[|s| - 1]) then TrimRightSpace(s[..|s| - 1]) else s
  }

  /** strings.TrimSpace. */
  function TrimSpace(s: string): string
  {
    TrimRightSpace(TrimLeftSpace(s))
  }

  /** The keys of a replacer must be non-empty (all replacers of the router are). */
  predicate KeysNonEmpty(pairs: seq<(string, string)>)
  {
    forall k :: 0 <= k < |pairs| ==> pairs[k].0 != ""
  }

  /** The first pair, at or after `from`, whose key is a prefix of `s`. */
  function FirstKey(s: string, pairs: seq<(string, string)>, from: nat): (r: Option<nat>)
    ensures r.Some? ==> from <= r.value < |pairs| && HasPrefix(s, pairs[r.value].0)
    ensures r.Some? ==> forall j :: from <= j < r.value ==> !HasPrefix(s, pairs[j].0)
    ensures r.None? ==> forall j :: from <= j < |pairs| ==> !HasPrefix(s, pairs[j].0)
    decreases |pairs| - from
  {
    if from >= |pairs| then None
    else if HasPrefix(s, pairs[from].0) then Some(from)
    else FirstKey(s, pairs, from + 1)
  }

  /**
   * strings.NewReplacer(k0, v0, k1, v1, ...).Replace(s): a left-to-right scan
   * in which, at each position, the earliest-listed key that matches there is
   * replaced and the scan resumes after it; otherwise one character is copied.
   */
  function Replace(s: string, pairs: seq<(string, string)>): string
    requires KeysNonEmpty(pairs)
    decreases |s|
  {
    if |s| == 0 then ""
    else match FirstKey(s, pairs, 0)
      case Some(k) => pairs[k].1 + Replace(s[|pairs[k].0|..], pairs)
      case None => [s[0]] + Replace(s[1..], pairs)
  }

  // ---------------------------------------------------------------------
  // Decimal numerals (strconv.Itoa)

  /** The decimal digits of a natural number, most significant first, without leading zeros. */
  function Digits(n: nat): (s: string)
    ensures |s| >= 1 && forall i :: 0 <= i < |s| ==> IsDigit(s[i])
    ensures |s| > 1 ==> s[0] != '0'
  {
    var d := ('0' as int + n % 10) as char;
    if n < 10 then [d] else Digits(n / 10) + [d]
  }

  /** Itoa: the decimal numeral of an integer, with a leading '-' when it is negative. */
  function Itoa(n: int): string
  {
    if n < 0 then "-" + Digits(-n) else Digits(n)
  }

  /** The number a string of decimal digits denotes. */
  function DecimalValue(s: string): nat
    requires forall i :: 0 <= i < |s| ==> IsDigit(s[i])
  {
    if |s| == 0 then 0
    else
      var c := s[|s| - 1];
      assert IsDigit(c);
      DecimalValue(s[..|s| - 1]) * 10 + (c as int - '0' as int)
  }

  /** Reading back the digits gives the number. */
  lemma {:induction false} DigitsValue(n: nat)
    ensures DecimalValue(Digits(n)) == n
  {
    if n >= 10 {
      DigitsValue(n / 10);
      assert Digits(n)[..|Digits(n)| - 1] == Digits(n / 10);
    }
  }

  // ---------------------------------------------------------------------
  // Sequences

  /** Concatenation is associative; stated once so that proofs about long texts need not re-derive it. */
  lemma AppendAssoc<T>(a: seq<T>, b: seq<T>, c: seq<T>)
    ensures a + b + c == a + (b + c)
  {
  }

  /** The whole of a sequence is its longest prefix. */
  /** A string with prefix `p` is `p` followed by the rest. */
  lemma PrefixRest(s: string, p: string)
    requires HasPrefix(s, p)
    ensures s == p + s[|p|..]
  {
  }

  /** A text that is `f`, possibly with one trailing '/', keeps that shape under a common prefix. */
  lemma PrependSlashed(a: string, t: string, f: string)
    requires t == f || t == f + "/"
    ensures a + t == a + f || a + t == a + f + "/"
  {
    if t != f {
      AppendAssoc(a, f, "/");
    }
  }

  /** Cutting a sequence at `a` and `b`. */
  lemma Cut3<T>(s: seq<T>, a: nat, b: nat)
    requires a <= b <= |s|
    ensures s == s[..a] + (s[a..b] + s[b..])
    ensures s[a..] == s[a..b] + s[b..]
  {
  }

  lemma AppendAssoc3<T>(s: seq<T>, a: seq<T>, b: seq<T>, c: seq<T>)
    ensures s + a + b + c == s + (a + b + c)
  {
  }

  lemma ConsTail<T>(s: seq<T>)
    requires |s| > 0
    ensures [s[0]] + s[1..] == s
  {
  }

  lemma EmptyAppend<T>(s: seq<T>)
    ensures [] + s == s
  {
  }

  lemma TakeAll<T>(s: seq<T>)
    ensures s[..|s|] == s
  {
  }

  /** A prefix one longer is the prefix followed by the next element. */
  lemma SplitLast<T>(s: seq<T>)
    requires |s| > 0
    ensures s[..|s| - 1] + [s[|s| - 1]] == s
  {
  }

  lemma TakeSnoc<T>(s: seq<T>, n: nat)
    requires n < |s|
    ensures s[..n + 1] == s[..n] + [s[n]]
    ensures s[..n + 1][..n] == s[..n]
  {
  }

  // ---------------------------------------------------------------------
  // Lemmas about trimming

  /** TrimLeft drops a run of cutset characters up to the first one outside it. */
  lemma {:induction false} TrimLeftRun(a: string, rest: string, cutset: string)
    requires forall i :: 0 <= i < |a| ==> a[i] in cutset
    requires rest == "" || rest[0] !in cutset
    ensures TrimLeft(a + rest, cutset) == rest
    decreases |a|
  {
    if |a| > 0 {
      assert (a + rest)[1..] == a[1..] + rest;
      TrimLeftRun(a[1..], rest, cutset);
    } else {
      assert a + rest == rest;
    }
  }

  lemma SuffixOfTail(s: string, r: string)
    requires |s| > 0 && HasSuffix(s[1..], r)
    ensures HasSuffix(s, r)
  {
    assert s[|s| - |r|..] == s[1..][|s| - 1 - |r|..];
  }

  /** TrimLeft removes a leading run of cutset characters and nothing else. */
  lemma {:induction false} TrimLeftCutset(s: string, cutset: string)
    ensures HasSuffix(s, TrimLeft(s, cutset))
    ensures TrimLeft(s, cutset) == "" || TrimLeft(s, cutset)[0] !in cutset
    ensures forall i :: 0 <= i < |s| - |TrimLeft(s, cutset)| ==> s[i] in cutset
    decreases |s|
  {
    if |s| > 0 && s[0] in cutset {
      var tail := s[1..];
      TrimLeftCutset(tail, cutset);
      var r := TrimLeft(s, cutset);
      assert r == TrimLeft(tail, cutset);
      SuffixOfTail(s, r);
      forall i | 0 <= i < |s| - |r|
        ensures s[i] in cutset
      {
        if i > 0 {
          assert s[i] == tail[i - 1];
        }
      }
    }
  }

  /** TrimRight drops a trailing run of `c` back to the last other character. */
  lemma {:induction false} TrimRightRun(s: string, run: string, c: char)
    requires forall i :: 0 <= i < |run| ==> run[i] == c
    requires s == "" || s[|s| - 1] != c
    ensures TrimRight(s + run, c) == s
    decreases |run|
  {
    if |run| > 0 {
      var run' := run[..|run| - 1];
      assert (s + run)[..|s + run| - 1] == s + run';
      TrimRightRun(s, run', c);
    } else {
      assert s + run == s;
    }
  }

  /** TrimRight keeps a prefix of its input that does not end in `c`. */
  lemma {:induction false} TrimRightPrefix(s: string, c: char)
    ensures HasPrefix(s, TrimRight(s, c))
    ensures TrimRight(s, c) == "" || TrimRight(s, c)[|TrimRight(s, c)| - 1] != c
    decreases |s|
  {
    if |s| > 0 && s[|s| - 1] == c {
      var s' := s[..|s| - 1];
      TrimRightPrefix(s', c);
      assert s[..|TrimRight(s', c)|] == s'[..|TrimRight(s', c)|];
    }
  }

  // ---------------------------------------------------------------------
  // Lemmas about Split and Join

  /** One step of Split: the effect of appending one character. */
  lemma SplitSnoc(s: string, ch: char, sep: char)
    ensures var init := Split(s, sep);
      Split(s + [ch], sep) ==
        if ch == sep then init + [""] else init[..|init| - 1] + [init[|init| - 1] + [ch]]
  {
    assert (s + [ch])[..|s|] == s;
  }

  /** Splitting `a + [sep] + b` splits `a` and `b` independently. */
  lemma {:induction false} SplitConcat(a: string, b: string, sep: char)
    ensures Split(a + [sep] + b, sep) == Split(a, sep) + Split(b, sep)
    decreases |b|
  {
    if |b| == 0 {
      assert a + [sep] + b == a + [sep];
      SplitSnoc(a, sep, sep);
    } else {
      var b', ch := b[..|b| - 1], b[|b| - 1];
      var ab := a + [sep] + b';
      assert b == b' + [ch];
      assert a + [sep] + b == ab + [ch];
      SplitConcat(a, b', sep);
      SplitConcatStep(Split(a, sep), Split(b', sep), ch, sep);
      SplitSnoc(ab, ch, sep);
      SplitSnoc(b', ch, sep);
    }
  }

  lemma SplitConcatStep(X: seq<string>, Y: seq<string>, ch: char, sep: char)
    requires |Y| >= 1
    ensures var Z := X + Y;
      (if ch == sep then Z + [""] else Z[..|Z| - 1] + [Z[|Z| - 1] + [ch]])
      == X + (if ch == sep then Y + [""] else Y[..|Y| - 1] + [Y[|Y| - 1] + [ch]])
  {
    var Z := X + Y;
    if ch != sep {
      assert Z[..|Z| - 1] == X + Y[..|Y| - 1];
    }
  }

  /** Join undoes Split. */
  lemma {:induction false} JoinSplit(s: string, sep: char)
    ensures Join(Split(s, sep), [sep]) == s
    decreases |s|
  {
    if |s| > 0 {
      var s' := s[..|s| - 1];
      var ch := s[|s| - 1];
      assert s == s' + [ch];
      JoinSplit(s', sep);
      SplitSnoc(s', ch, sep);
      JoinSplitStep(Split(s', sep), ch, sep);
    }
  }

  /** One more character extends the joined pieces by that character. */
  lemma JoinSplitStep(init: seq<string>, ch: char, sep: char)
    requires |init| >= 1
    ensures Join(if ch == sep then init + [""] else init[..|init| - 1] + [init[|init| - 1] + [ch]], [sep])
            == Join(init, [sep]) + [ch]
  {
    if ch == sep {
      JoinSnoc(init, "", [sep]);
      assert Join(init, [sep]) + [sep] + "" == Join(init, [sep]) + [ch];
    } else if |init| == 1 {
      assert init[..0] + [init[0] + [ch]] == [init[0] + [ch]];
    } else {
      var front, last := init[..|init| - 1], init[|init| - 1];
      assert init == front + [last];
      JoinSnoc(front, last + [ch], [sep]);
      JoinSnoc(front, last, [sep]);
      AppendAssoc(Join(front, [sep]) + [sep], last, [ch]);
    }
  }

  /** Joining one more piece adds the separator and the piece. */
  lemma JoinSnoc(parts: seq<string>, x: string, sep: string)
    requires |parts| > 0
    ensures Join(parts + [x], sep) == Join(parts, sep) + sep + x
  {
    assert (parts + [x])[..|parts|] == parts;
  }

  /** A string without the separator splits into itself. */
  lemma {:induction false} NoSepSplit(s: string, sep: char)
    requires sep !in s
    ensures Split(s, sep) == [s]
    decreases |s|
  {
    if |s| > 0 {
      NoSepSplit(s[..|s| - 1], sep);
      assert s[..|s| - 1] + [s[|s| - 1]] == s;
    }
  }

  /** Split undoes Join of pieces that do not hold the separator. */
  lemma {:induction false} SplitJoin(parts: seq<string>, sep: char)
    requires |parts| > 0
    requires forall k :: 0 <= k < |parts| ==> sep !in parts[k]
    ensures Split(Join(parts, [sep]), sep) == parts
    decreases |parts|
  {
    if |parts| == 1 {
      NoSepSplit(parts[0], sep);
    } else {
      var init, last := parts[..|parts| - 1], parts[|parts| - 1];
      SplitJoin(init, sep);
      assert Join(parts, [sep]) == Join(init, [sep]) + [sep] + last;
      SplitConcat(Join(init, [sep]), last, sep);
      NoSepSplit(last, sep);
      assert init + [last] == parts;
    }
  }

  /** The first piece of a split is a prefix of the string. */
  lemma {:induction false} SplitPrefix(s: string, sep: char)
    ensures HasPrefix(s, Split(s, sep)[0])
    decreases |s|
  {
    if |s| > 0 {
      var s' := s[..|s| - 1];
      assert s == s' + [s[|s| - 1]];
      SplitPrefix(s', sep);
      SplitSnoc(s', s[|s| - 1], sep);
      var init := Split(s', sep);
      if |init| == 1 && s[|s| - 1] != sep {
        JoinSplit(s', sep);
        assert Join(init, [sep]) == init[0];
      }
    }
  }

  /** Split yields one more piece than there are separators, and no piece holds one. */
  lemma {:induction false} SplitPieces(s: string, sep: char)
    ensures |Split(s, sep)| == Count(s, sep) + 1
    ensures forall k :: 0 <= k < |Split(s, sep)| ==> sep !in Split(s, sep)[k]
    decreases |s|
  {
    if |s| > 0 {
      SplitPieces(s[..|s| - 1], sep);
    }
  }

  /** Joining two non-empty lists of pieces puts one separator between them. */
  lemma {:induction false} JoinAppend(a: seq<string>, b: seq<string>, sep: string)
    requires |a| > 0 && |b| > 0
    ensures Join(a + b, sep) == Join(a, sep) + sep + Join(b, sep)
    decreases |b|
  {
    if |b| == 1 {
      assert (a + b)[..|a + b| - 1] == a;
    } else {
      var b' := b[..|b| - 1];
      assert (a + b)[..|a + b| - 1] == a + b';
      JoinAppend(a, b', sep);
    }
  }

  /** Lower-casing commutes with splitting on a separator that is not a letter. */
  lemma {:induction false} SplitLower(s: string, sep: char)
    requires !IsUpper(sep) && !('a' <= sep <= 'z')
    ensures |Split(ToLower(s), sep)| == |Split(s, sep)|
    ensures forall k :: 0 <= k < |Split(s, sep)| ==> Split(ToLower(s), sep)[k] == ToLower(Split(s, sep)[k])
    decreases |s|
  {
    if |s| > 0 {
      var s' := s[..|s| - 1];
      assert ToLower(s)[..|s| - 1] == ToLower(s');
      SplitLower(s', sep);
      var ch := s[|s| - 1];
      var lch := LowerChar(ch);
      assert ToLower(s) == ToLower(s') + [lch];
      assert Split(s, sep) == SplitPush(Split(s', sep), ch, sep);
      assert Split(ToLower(s), sep) == SplitPush(Split(ToLower(s'), sep), lch, sep);
      LowerPush(Split(s', sep), Split(ToLower(s'), sep), ch, sep);
    }
  }

  /** Split's step: one more character either opens a new part or extends the last one. */
  function SplitPush(parts: seq<string>, ch: char, sep: char): seq<string>
    requires |parts| > 0
  {
    if ch == sep then parts + [""]
    else parts[..|parts| - 1] + [parts[|parts| - 1] + [ch]]
  }

  /** One Split step keeps a part-wise lower-casing relation. */
  lemma LowerPush(parts: seq<string>, lparts: seq<string>, ch: char, sep: char)
    requires !IsUpper(sep) && !('a' <= sep <= 'z')
    requires |parts| > 0 && |lparts| == |parts|
    requires forall k :: 0 <= k < |parts| ==> lparts[k] == ToLower(parts[k])
    ensures |SplitPush(lparts, LowerChar(ch), sep)| == |SplitPush(parts, ch, sep)|
    ensures forall k :: 0 <= k < |SplitPush(parts, ch, sep)| ==>
      SplitPush(lparts, LowerChar(ch), sep)[k] == ToLower(SplitPush(parts, ch, sep)[k])
  {
    var n := |parts|;
    if ch != sep {
      assert LowerChar(ch) != sep;
      assert ToLower(parts[n - 1] + [ch]) == ToLower(parts[n - 1]) + [LowerChar(ch)];
    }
  }

  /** The ASCII lower-casing leaves no upper-case letter. */
  lemma LowerHasNoUpper(s: string)
    ensures NoUpper(ToLower(s))
  {
  }

  /** Lower-casing is idempotent. */
  lemma LowerIdempotent(s: string)
    ensures ToLower(ToLower(s)) == ToLower(s)
  {
  }
}
