/** The handful of Python `str` operations the launcher relies on, written
    out over `string` (a sequence of Unicode scalar values): `isspace`,
    `strip`, `lower`, `in`, `find`, `split`, `join`, `replace`,
    `startswith` and `endswith`. */
module Text {
  import opened Optional

  /** `c.isspace()`: the characters Python counts as whitespace. */
  predicate IsSpace(c: char)
  {
    || c == ' '
    || ('\t' <= c <= '\r')
    || ('\U{1c}' <= c <= '\U{1f}')
    || c == '\U{85}' || c == '\U{a0}' || c == '\U{1680}'
    || ('\U{2000}' <= c <= '\U{200a}')
    || c == '\U{2028}' || c == '\U{2029}' || c == '\U{202f}'
    || c == '\U{205f}' || c == '\U{3000}'
  }

  predicate AllSpace(s: string)
  {
    forall i :: 0 <= i < |s| ==> IsSpace(s[i])
  }

  /** A string with no whitespace at either end: what `strip` returns. */
  predicate IsStripped(s: string)
  {
    s == [] || (!IsSpace(s[0]) && !IsSpace(s[|s| - 1]))
  }

  /** `s.lstrip()`: the longest suffix that does not start with whitespace. */
  function TrimStart(s: string): (r: string)
    ensures |r| <= |s|
  {
    if |s| > 0 && IsSpace(s[0]) then TrimStart(s[1..]) else s
  }

  lemma {:induction false} TrimStartShape(s: string)
    ensures TrimStart(s) == s[|s| - |TrimStart(s)|..]
    ensures TrimStart(s) == [] || !IsSpace(TrimStart(s)[0])
    ensures AllSpace(s[..|s| - |TrimStart(s)|])
  {
    if |s| > 0 && IsSpace(s[0]) {
      TrimStartShape(s[1..]);
      var r := TrimStart(s[1..]);
      var n := |s| - |r|;
      assert s[1..][..|s| - 1 - |r|] == s[1..n];
      assert s[..n] == [s[0]] + s[1..n];
    }
  }

  /** `s.rstrip()`: the longest prefix that does not end with whitespace. */
  function TrimEnd(s: string): (r: string)
    ensures |r| <= |s|
  {
    if |s| > 0 && IsSpace(s[|s| - 1]) then TrimEnd(s[..|s| - 1]) else s
  }

  lemma {:induction false} TrimEndShape(s: string)
    ensures TrimEnd(s) == s[..|TrimEnd(s)|]
    ensures TrimEnd(s) == [] || !IsSpace(TrimEnd(s)[|TrimEnd(s)| - 1])
    ensures AllSpace(s[|TrimEnd(s)|..])
  {
    if |s| > 0 && IsSpace(s[|s| - 1]) {
      var s' := s[..|s| - 1];
      TrimEndShape(s');
      var r := TrimEnd(s');
      assert s'[..|r|] == s[..|r|];
      assert s[|r|..] == s'[|r|..] + [s[|s| - 1]];
    }
  }

  /** `s.strip()`: `s` without the whitespace around it. */
  function Strip(s: string): (r: string)
    ensures IsStripped(r)
    ensures |r| <= |s|
  {
    var t := TrimStart(s);
    TrimStartShape(s);
    TrimEndShape(t);
    var r := TrimEnd(t);
    assert r == [] || !IsSpace(r[0]) by {
      if r != [] { assert r[0] == t[0]; }
    }
    r
  }

  /** What `strip` cuts is whitespace only: `s` is some whitespace, the
      stripped text, and some more whitespace. */
  lemma StripShape(s: string) returns (lo: nat)
    ensures lo + |Strip(s)| <= |s|
    ensures s == s[..lo] + Strip(s) + s[lo + |Strip(s)|..]
    ensures AllSpace(s[..lo]) && AllSpace(s[lo + |Strip(s)|..])
  {
    var t := TrimStart(s);
    TrimStartShape(s);
    TrimEndShape(t);
    var r := TrimEnd(t);
    assert Strip(s) == r;
    lo := |s| - |t|;
    SuffixSlices(s, lo, |r|);
    Thirds(s, lo, lo + |r|);
  }

  /** Slicing a suffix is slicing the whole at shifted positions. */
  lemma SuffixSlices<T>(s: seq<T>, lo: nat, k: nat)
    requires lo + k <= |s|
    ensures s[lo..][..k] == s[lo..lo + k]
    ensures s[lo..][k..] == s[lo + k..]
  {
  }

  lemma Thirds<T>(s: seq<T>, lo: nat, hi: nat)
    requires lo <= hi <= |s|
    ensures s == s[..lo] + s[lo..hi] + s[hi..]
  {
  }

  /** Whitespace around a stripped text is exactly what `strip` removes. */
  lemma {:induction false} StripPadded(a: string, t: string, b: string)
    requires AllSpace(a) && AllSpace(b) && IsStripped(t)
    ensures Strip(a + t + b) == t
  {
    assert a + t + b == a + (t + b);
    if t == [] {
      assert a + t + b == (a + b) + [];
      assert AllSpace(a + b);
      TrimStartPadded(a + b, []);
    } else {
      TrimStartPadded(a, t + b);
      TrimEndPadded(t, b);
    }
  }

  lemma {:induction false} TrimStartPadded(a: string, u: string)
    requires AllSpace(a)
    requires u == [] || !IsSpace(u[0])
    ensures TrimStart(a + u) == u
    decreases |a|
  {
    if a == [] {
      assert a + u == u;
    } else {
      assert (a + u)[1..] == a[1..] + u;
      TrimStartPadded(a[1..], u);
    }
  }

  lemma {:induction false} TrimEndPadded(t: string, b: string)
    requires AllSpace(b)
    requires t == [] || !IsSpace(t[|t| - 1])
    ensures TrimEnd(t + b) == t
    decreases |b|
  {
    if b == [] {
      assert t + b == t;
    } else {
      var b' := b[..|b| - 1];
      assert (t + b)[..|t + b| - 1] == t + b';
      TrimEndPadded(t, b');
    }
  }

  lemma StripIdempotent(s: string)
    ensures Strip(Strip(s)) == Strip(s)
  {
    var t := Strip(s);
    StripPadded([], t, []);
    assert [] + t + [] == t;
  }

  /** The Basic Latin and Latin-1 upper-case letters. */
  predicate IsUpper(c: char)
  {
    'A' <= c <= 'Z' || ('\U{c0}' <= c <= '\U{de}' && c != '\U{d7}')
  }

  /** `c.lower()` for the Basic Latin and Latin-1 letters. */
  function LowerChar(c: char): char
  {
    if IsUpper(c) then (c as int + 32) as char else c
  }

  /** `s.lower()`: letter by letter, leaving the length unchanged. */
  function Lower(s: string): (r: string)
    ensures |r| == |s|
    ensures forall i :: 0 <= i < |r| ==> !IsUpper(r[i])
    ensures forall i :: 0 <= i < |r| ==> r[i] == LowerChar(s[i])
  {
    seq(|s|, i requires 0 <= i < |s| => LowerChar(s[i]))
  }

  lemma LowerIdempotent(s: string)
    ensures Lower(Lower(s)) == Lower(s)
  {
  }

  /** Lowering never creates or removes whitespace, so stripping before or
      after lowering gives the same text. */
  lemma LowerStripCommute(s: string)
    ensures Lower(Strip(s)) == Strip(Lower(s))
  {
    var lo := StripShape(s);
    var t := Strip(s);
    var a, b := s[..lo], s[lo + |t|..];
    assert s == a + t + b;
    LowerConcat(a, t, b);
    var la, lt, lb := Lower(a), Lower(t), Lower(b);
    assert Lower(s) == la + lt + lb;
    LowerKeepsSpace(a);
    LowerKeepsSpace(b);
    LowerKeepsStripped(t);
    StripPadded(la, lt, lb);
  }

  lemma LowerKeepsSpace(a: string)
    requires AllSpace(a)
    ensures AllSpace(Lower(a))
  {
    forall i | 0 <= i < |a|
      ensures IsSpace(Lower(a)[i])
    {
      assert Lower(a)[i] == LowerChar(a[i]) == a[i];
    }
  }

  lemma LowerKeepsStripped(t: string)
    requires IsStripped(t)
    ensures IsStripped(Lower(t))
  {
    if t != [] {
      assert !IsSpace(LowerChar(t[0]));
      assert !IsSpace(LowerChar(t[|t| - 1]));
    }
  }

  lemma LowerConcat(a: string, t: string, b: string)
    ensures Lower(a + t + b) == Lower(a) + Lower(t) + Lower(b)
  {
  }

  /** `pat` occurs in `s` starting at position `i`. */
  predicate OccursAt(s: string, pat: string, i: nat)
  {
    i + |pat| <= |s| && s[i..i + |pat|] == pat
  }

  /** The first occurrence of `pat` in `s` at or after `from`. */
  function FindFrom(s: string, pat: string, from: nat): (r: Option<nat>)
    ensures r.Some? ==>
      && from <= r.value && OccursAt(s, pat, r.value)
      && forall j :: from <= j < r.value ==> !OccursAt(s, pat, j)
    ensures r.None? ==> forall j :: from <= j ==> !OccursAt(s, pat, j)
    decreases |s| - from
  {
    if from + |pat| > |s| then None
    else if s[from..from + |pat|] == pat then Some(from)
    else FindFrom(s, pat, from + 1)
  }

  lemma FindHere(s: string, pat: string, from: nat)
    requires OccursAt(s, pat, from)
    ensures FindFrom(s, pat, from) == Some(from)
  {
  }

  lemma FindPast(s: string, pat: string, from: nat)
    requires from + |pat| <= |s| && !OccursAt(s, pat, from)
    ensures FindFrom(s, pat, from) == FindFrom(s, pat, from + 1)
  {
  }

  lemma FindNone(s: string, pat: string, from: nat)
    requires from + |pat| > |s|
    ensures FindFrom(s, pat, from) == None
  {
  }

  /** `s.find(pat)`, with `None` for Python's -1. */
  function IndexOf(s: string, pat: string): (r: Option<nat>)
    ensures r.Some? ==>
      OccursAt(s, pat, r.value) && forall j :: 0 <= j < r.value ==> !OccursAt(s, pat, j)
    ensures r.None? ==> forall j :: 0 <= j ==> !OccursAt(s, pat, j)
  {
    FindFrom(s, pat, 0)
  }

  /** `pat in s`. */
  predicate Contains(s: string, pat: string)
  {
    IndexOf(s, pat).Some?
  }

  /** A character `c` occurs in `s` exactly when `[c]` is found in it. */
  lemma ContainsChar(s: string, c: char)
    ensures Contains(s, [c]) <==> exists i :: 0 <= i < |s| && s[i] == c
  {
    if exists i :: 0 <= i < |s| && s[i] == c {
      var i :| 0 <= i < |s| && s[i] == c;
      assert OccursAt(s, [c], i);
    }
    if Contains(s, [c]) {
      var j := IndexOf(s, [c]).value;
      assert s[j..j + 1] == [c];
      assert s[j] == c;
    }
  }

  /** `sep.join(xs)`. */
  function Join(xs: seq<string>, sep: string): (r: string)
    ensures |xs| > 0 ==> StartsWith(r, xs[0])
  {
    if |xs| == 0 then ""
    else if |xs| == 1 then xs[0]
    else xs[0] + sep + Join(xs[1..], sep)
  }

  /** `s.split(sep)` for a non-empty separator: the pieces between the
      leftmost non-overlapping occurrences of `sep`. */
  function Split(s: string, sep: string): (r: seq<string>)
    requires |sep| > 0
    ensures |r| >= 1
    decreases |s|
  {
    match IndexOf(s, sep)
    case None => [s]
    case Some(i) =>
      FirstOccurrence(s, sep, i);
      [s[..i]] + Split(s[i + |sep|..], sep)
  }

  /** Without an occurrence of `sep`, the text is its only piece. */
  lemma SplitNone(s: string, sep: string)
    requires |sep| > 0 && IndexOf(s, sep).None?
    ensures Split(s, sep) == [s]
  {
  }

  /** With a first occurrence at `i`, the first piece is the text before it
      and the rest are the pieces of the text after it. */
  lemma SplitFirst(s: string, sep: string, i: nat)
    requires |sep| > 0 && IndexOf(s, sep) == Some(i)
    ensures i + |sep| <= |s|
    ensures Split(s, sep) == [s[..i]] + Split(s[i + |sep|..], sep)
  {
  }

  /** Joining the pieces with `sep` gives `s` back, no piece holds `sep`,
      and there are at least two pieces exactly when `sep` occurs. */
  lemma {:induction false} SplitSpec(s: string, sep: string)
    requires |sep| > 0
    ensures Join(Split(s, sep), sep) == s
    ensures forall k :: 0 <= k < |Split(s, sep)| ==> !Contains(Split(s, sep)[k], sep)
    ensures |Split(s, sep)| >= 2 <==> Contains(s, sep)
    decreases |s|
  {
    match IndexOf(s, sep)
    case None =>
      SplitNone(s, sep);
    case Some(i) =>
      var tail := s[i + |sep|..];
      SplitFirst(s, sep, i);
      FirstOccurrence(s, sep, i);
      SplitSpec(tail, sep);
      var r := Split(s, sep);
      assert r[1..] == Split(tail, sep);
      assert Join(r, sep) == s[..i] + sep + tail;
  }

  /** The text before the first occurrence of `sep` does not hold `sep`,
      and `s` is that text, `sep`, and the rest. */
  lemma FirstOccurrence(s: string, sep: string, i: nat)
    requires |sep| > 0 && IndexOf(s, sep) == Some(i)
    ensures !Contains(s[..i], sep)
    ensures s == s[..i] + sep + s[i + |sep|..]
  {
    assert !Contains(s[..i], sep) by {
      if Contains(s[..i], sep) {
        var j := IndexOf(s[..i], sep).value;
        assert s[..i][j..j + |sep|] == s[j..j + |sep|];
        assert OccursAt(s, sep, j);
        assert false;
      }
    }
    assert s[i..i + |sep|] == sep;
    assert s == s[..i] + s[i..i + |sep|] + s[i + |sep|..];
  }

  /** `s.split(sep, 1)`: the text before the first `sep` and everything
      after it, later occurrences included. */
  function SplitOnce(s: string, sep: string): (r: seq<string>)
    requires |sep| > 0
    ensures 1 <= |r| <= 2
    ensures |r| == 2 <==> Contains(s, sep)
    ensures |r| == 1 ==> r[0] == s
    ensures |r| == 2 ==> r[0] + sep + r[1] == s && !Contains(r[0], sep)
  {
    match IndexOf(s, sep)
    case None => [s]
    case Some(i) =>
      FirstOccurrence(s, sep, i);
      [s[..i], s[i + |sep|..]]
  }

  /** `s.replace(target, repl)` for a non-empty `target`: every occurrence of
      `target`, leftmost first, replaced by `repl`. */
  function Replace(s: string, target: string, repl: string): (r: string)
    requires |target| > 0
    ensures !Contains(s, target) ==> r == s
    ensures repl == target ==> r == s
  {
    SplitSpec(s, target);
    Join(Split(s, target), repl)
  }

  /** `replace` works from the left: the text before the first occurrence of
      `target` is kept, that occurrence becomes `repl`, and the rest of the
      text after it is replaced in the same way. With the case of no
      occurrence, this determines the result for every input. */
  lemma ReplaceFirst(s: string, target: string, repl: string, i: nat)
    requires |target| > 0 && IndexOf(s, target) == Some(i)
    ensures i + |target| <= |s|
    ensures Replace(s, target, repl) == s[..i] + repl + Replace(s[i + |target|..], target, repl)
  {
    SplitFirst(s, target, i);
    JoinCons(s[..i], Split(s[i + |target|..], target), repl);
  }

  /** Joining a list with a first element in front. */
  lemma JoinCons(x: string, xs: seq<string>, sep: string)
    requires |xs| >= 1
    ensures Join([x] + xs, sep) == x + sep + Join(xs, sep)
  {
    assert ([x] + xs)[1..] == xs;
  }

  /** A template whose only occurrence of `target` is at its very end turns
      into the prefix followed by the substituted value. */
  lemma {:induction false} ReplaceAtEnd(p: string, target: string, v: string)
    requires |target| > 0
    requires forall i :: 0 <= i < |p| ==> p[i] != target[0]
    ensures Replace(p + target, target, v) == p + v
  {
    var s := p + target;
    assert OccursAt(s, target, |p|) by { assert s[|p|..|p| + |target|] == target; }
    forall j | 0 <= j < |p|
      ensures !OccursAt(s, target, j)
    {
      assert s[j] == p[j];
    }
    var i := IndexOf(s, target).value;
    assert i == |p|;
    FirstOccurrence(s, target, i);
    assert s[|p| + |target|..] == [];
    assert IndexOf([], target) == None;
    SplitNone([], target);
    SplitFirst(s, target, i);
    assert s[..|p|] == p;
    assert Split(s, target) == [p, []];
    assert Join([p, []], v) == p + v + [];
  }

  /** A separator of one character that no element holds: splitting the
      joined text gives the elements back. */
  lemma {:induction false} SplitJoin(xs: seq<string>, c: char)
    requires |xs| >= 1
    requires forall k, i :: 0 <= k < |xs| && 0 <= i < |xs[k]| ==> xs[k][i] != c
    ensures Split(Join(xs, [c]), [c]) == xs
    decreases |xs|
  {
    var x := xs[0];
    if |xs| == 1 {
      assert Join(xs, [c]) == x;
      NoCharNotContained(x, c);
      SplitNone(x, [c]);
    } else {
      var rest := Join(xs[1..], [c]);
      assert Join(xs, [c]) == x + [c] + rest;
      SplitAtChar(x, c, rest);
      SplitJoin(xs[1..], c);
      assert xs == [x] + xs[1..];
    }
  }

  /** Splitting at a character that the first piece does not hold. */
  lemma SplitAtChar(x: string, c: char, rest: string)
    requires forall i :: 0 <= i < |x| ==> x[i] != c
    ensures Split(x + [c] + rest, [c]) == [x] + Split(rest, [c])
  {
    var s := x + [c] + rest;
    assert IndexOf(s, [c]) == Some(|x|) by {
      assert OccursAt(s, [c], |x|) by { assert s[|x|..|x| + 1] == [c]; }
      forall j | 0 <= j < |x|
        ensures !OccursAt(s, [c], j)
      {
        assert s[j] == x[j];
      }
    }
    SplitFirst(s, [c], |x|);
    assert s[..|x|] == x;
    assert s[|x| + 1..] == rest;
  }

  lemma NoCharNotContained(x: string, c: char)
    requires forall i :: 0 <= i < |x| ==> x[i] != c
    ensures !Contains(x, [c])
  {
    ContainsChar(x, c);
  }

  lemma ConcatAssoc<T>(a: seq<T>, b: seq<T>, c: seq<T>)
    ensures (a + b) + c == a + (b + c)
  {
  }

  predicate StartsWith(s: string, prefix: string)
  {
    |prefix| <= |s| && s[..|prefix|] == prefix
  }

  predicate EndsWith(s: string, suffix: string)
  {
    |suffix| <= |s| && s[|s| - |suffix|..] == suffix
  }
}
