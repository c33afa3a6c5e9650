/**
  String helpers with Python's meaning: substring search (`str.find`),
  the character classes `str.strip()` and `str.rstrip(chars)` remove,
  and `str.join`.
 */
module Strings {
  import opened Wrappers

  /** `p` occurs in `s` starting at index `k`. */
  predicate ContainsAt(s: string, p: string, k: nat) {
    k + |p| <= |s| && s[k..k + |p|] == p
  }

  /** `p` occurs nowhere in `s`. */
  ghost predicate NoOccurrence(s: string, p: string) {
    forall k: nat :: !ContainsAt(s, p, k)
  }

  /** First index at or after `from` where `p` occurs in `s`. */
  function Find(s: string, p: string, from: nat): (r: Option<nat>)
    ensures r.Some? ==>
      && from <= r.value
      && ContainsAt(s, p, r.value)
      && forall k: nat :: from <= k < r.value ==> !ContainsAt(s, p, k)
    ensures r.None? ==> forall k: nat :: from <= k ==> !ContainsAt(s, p, k)
    decreases |s| - from
  {
    if from + |p| > |s| then None
    else if s[from..from + |p|] == p then Some(from)
    else Find(s, p, from + 1)
  }

  /** An occurrence with none before it (from `from` on) is the one `Find` reports. */
  lemma FindIsFirst(s: string, p: string, from: nat, k: nat)
    requires from <= k && ContainsAt(s, p, k)
    requires forall m: nat :: from <= m < k ==> !ContainsAt(s, p, m)
    ensures Find(s, p, from) == Some(k)
  {
  }

  /** Occurrences in a suffix are occurrences in the whole string, shifted. */
  lemma ContainsAtShift(x: string, y: string, p: string, k: nat)
    ensures ContainsAt(x + y, p, |x| + k) <==> ContainsAt(y, p, k)
  {
    if k + |p| <= |y| {
      assert (x + y)[|x| + k..|x| + k + |p|] == y[k..k + |p|];
    }
  }

  /** Occurrences in a prefix are occurrences in the whole string. */
  lemma ContainsAtPrefix(x: string, y: string, p: string, k: nat)
    requires k + |p| <= |x|
    ensures ContainsAt(x + y, p, k) <==> ContainsAt(x, p, k)
  {
    assert (x + y)[k..k + |p|] == x[k..k + |p|];
  }

  /** An occurrence inside a slice is an occurrence in the whole string. */
  lemma NoOccurrenceSlice(s: string, p: string, a: nat, b: nat)
    requires a <= b <= |s|
    requires NoOccurrence(s, p)
    ensures NoOccurrence(s[a..b], p)
  {
    forall k: nat
      ensures !ContainsAt(s[a..b], p, k)
    {
      if k + |p| <= b - a {
        var w := s[a..b][k..k + |p|];
        assert forall i | 0 <= i < |p| :: w[i] == s[a + k + i];
        assert w == s[a + k..a + k + |p|];
        assert !ContainsAt(s, p, a + k);
      }
    }
  }

  /**
    When `a` does not contain `p` and the character `c` after it does not
    occur in `p`, no occurrence of `p` in `a + [c] + rest` starts at or before
    `|a|`: one would either lie inside `a` or cover `c`.
   */
  lemma NoOccurrenceUpToSeparator(a: string, c: char, rest: string, p: string)
    requires |p| > 0 && c !in p
    requires NoOccurrence(a, p)
    ensures forall k: nat :: k <= |a| ==> !ContainsAt(a + [c] + rest, p, k)
  {
    var t := a + [c] + rest;
    forall k: nat | k <= |a|
      ensures !ContainsAt(t, p, k)
    {
      if k + |p| <= |a| {
        assert t == a + ([c] + rest);
        ContainsAtPrefix(a, [c] + rest, p, k);
      } else if k + |p| <= |t| {
        assert t[k..k + |p|][|a| - k] == t[|a|] == c;
        assert p[|a| - k] in p;
      }
    }
  }

  /**
    In `pre + [c] + x + [c] + rest`, no occurrence of `p` starts from the
    first `c` up to the second, when `x` has none and `c` is not in `p`.
   */
  lemma NoneInSeparatedPiece(pre: string, c: char, x: string, rest: string, p: string)
    requires |p| > 0 && c !in p
    requires NoOccurrence(x, p)
    ensures forall m: nat :: |pre| <= m < |pre| + 1 + |x| + 1 ==> !ContainsAt(pre + [c] + x + [c] + rest, p, m)
  {
    var head := pre + [c];
    var tail := x + [c] + rest;
    var s := pre + [c] + x + [c] + rest;
    assert s == head + tail;
    NoOccurrenceUpToSeparator(x, c, rest, p);
    forall m: nat | |pre| <= m < |head| + |x| + 1
      ensures !ContainsAt(s, p, m)
    {
      if m < |head| {
        assert s[m] == c;
        assert m + |p| <= |s| ==> s[m..m + |p|][0] == c;
        assert p[0] in p;
      } else {
        ContainsAtShift(head, tail, p, m - |head|);
      }
    }
  }

  /**
    In `pre + [c] + x + [c] + rest`, the first occurrence of `p` from the
    first `c` on is the one that starts `rest`, when `x` has none and `c`
    is not in `p`.
   */
  lemma FirstAfterSeparatedPiece(pre: string, c: char, x: string, rest: string, p: string)
    requires |p| > 0 && c !in p
    requires NoOccurrence(x, p) && ContainsAt(rest, p, 0)
    ensures ContainsAt(pre + [c] + x + [c] + rest, p, |pre| + 1 + |x| + 1)
    ensures forall m: nat :: |pre| <= m < |pre| + 1 + |x| + 1 ==> !ContainsAt(pre + [c] + x + [c] + rest, p, m)
  {
    var head := pre + [c];
    var tail := x + [c] + rest;
    assert pre + [c] + x + [c] + rest == head + tail;
    ContainsAtShift(x + [c], rest, p, 0);
    assert x + [c] + rest == (x + [c]) + rest;
    ContainsAtShift(head, tail, p, |x| + 1);
    NoneInSeparatedPiece(pre, c, x, rest, p);
  }

  /** The search from the separated piece's start stops just after its closing separator. */
  lemma FindAfterSeparatedPiece(s: string, pre: string, c: char, x: string, rest: string, p: string, from: nat, k: nat)
    requires s == pre + [c] + x + [c] + rest && from == |pre| && k == |pre| + |x| + 2
    requires |p| > 0 && c !in p
    requires NoOccurrence(x, p) && ContainsAt(rest, p, 0)
    ensures Find(s, p, from) == Some(k)
  {
    FirstAfterSeparatedPiece(pre, c, x, rest, p);
    FindIsFirst(s, p, from, k);
  }

  /** The whitespace `str.strip()` removes: exactly the characters for which `str.isspace()` holds. */
  predicate IsSpace(c: char) {
    || '\U{0009}' <= c <= '\U{000D}'
    || '\U{001C}' <= c <= '\U{0020}'
    || c == '\U{0085}' || c == '\U{00A0}' || c == '\U{1680}'
    || '\U{2000}' <= c <= '\U{200A}'
    || c == '\U{2028}' || c == '\U{2029}' || c == '\U{202F}'
    || c == '\U{205F}' || c == '\U{3000}'
  }

  /** The one character `rstrip("`")` removes. */
  predicate IsBacktick(c: char) {
    c == '`'
  }

  /** The first index at or after `from` whose character `drop` keeps, or `|s|`. */
  function SkipFrom(s: string, drop: char -> bool, from: nat): (k: nat)
    requires from <= |s|
    ensures from <= k <= |s|
    ensures forall i :: from <= i < k ==> drop(s[i])
    ensures k == |s| || !drop(s[k])
    decreases |s| - from
  {
    if from < |s| && drop(s[from]) then SkipFrom(s, drop, from + 1) else from
  }

  /** The index just past the last character in `[lo, hi)` that `drop` keeps, or `lo`. */
  function SkipBack(s: string, drop: char -> bool, lo: nat, hi: nat): (k: nat)
    requires lo <= hi <= |s|
    ensures lo <= k <= hi
    ensures forall i :: k <= i < hi ==> drop(s[i])
    ensures k == lo || !drop(s[k - 1])
    decreases hi
  {
    if hi > lo && drop(s[hi - 1]) then SkipBack(s, drop, lo, hi - 1) else hi
  }

  /** The three facts `SkipFrom` ensures pin its result down. */
  lemma SkipFromUnique(s: string, drop: char -> bool, from: nat, n: nat)
    requires from <= n <= |s|
    requires forall i :: from <= i < n ==> drop(s[i])
    requires n == |s| || !drop(s[n])
    ensures SkipFrom(s, drop, from) == n
  {
  }

  /** The three facts `SkipBack` ensures pin its result down. */
  lemma SkipBackUnique(s: string, drop: char -> bool, lo: nat, hi: nat, n: nat)
    requires lo <= n <= hi <= |s|
    requires forall i :: n <= i < hi ==> drop(s[i])
    requires n == lo || !drop(s[n - 1])
    ensures SkipBack(s, drop, lo, hi) == n
  {
  }

  /** Python's `s.lstrip(chars)`: drops the longest prefix of characters satisfying `drop`. */
  function TrimStart(s: string, drop: char -> bool): string {
    s[SkipFrom(s, drop, 0)..]
  }

  /** Python's `s.rstrip(chars)`: drops the longest suffix of characters satisfying `drop`. */
  function TrimEnd(s: string, drop: char -> bool): string {
    s[..SkipBack(s, drop, 0, |s|)]
  }

  /** Python's `s.strip()`: the piece of `s` between its leading and its trailing whitespace. */
  function Strip(s: string): string {
    var a := SkipFrom(s, IsSpace, 0);
    s[a..SkipBack(s, IsSpace, a, |s|)]
  }

  /** Scanning back over a suffix of `s` finds the same place as scanning back over `s` itself. */
  lemma {:induction false} SkipBackSuffix(s: string, drop: char -> bool, a: nat, hi: nat)
    requires a <= hi <= |s|
    ensures SkipBack(s[a..], drop, 0, hi - a) + a == SkipBack(s, drop, a, hi)
    decreases hi
  {
    if hi > a {
      assert s[a..][hi - a - 1] == s[hi - 1];
      SkipBackSuffix(s, drop, a, hi - 1);
    }
  }

  lemma PrefixOfSuffix(s: string, a: nat, b: nat)
    requires a <= b <= |s|
    ensures s[a..][..b - a] == s[a..b]
  {
  }

  /** `strip()` is `lstrip()` followed by `rstrip()`. */
  lemma StripIsTrimBoth(s: string)
    ensures Strip(s) == TrimEnd(TrimStart(s, IsSpace), IsSpace)
  {
    var a := SkipFrom(s, IsSpace, 0);
    var b := SkipBack(s, IsSpace, a, |s|);
    SkipBackSuffix(s, IsSpace, a, |s|);
    PrefixOfSuffix(s, a, b);
  }

  /** A string `strip()` leaves as it is: no whitespace at either end. */
  predicate IsStripped(s: string) {
    s == [] || (!IsSpace(s[0]) && !IsSpace(s[|s| - 1]))
  }

  ghost predicate AllSpace(s: string) {
    forall i :: 0 <= i < |s| ==> IsSpace(s[i])
  }

  /** `strip()` leaves no whitespace at either end. */
  lemma StripResultStripped(s: string)
    ensures IsStripped(Strip(s))
  {
    var a := SkipFrom(s, IsSpace, 0);
    var b := SkipBack(s, IsSpace, a, |s|);
    if a < b {
      assert Strip(s)[0] == s[a];
      assert Strip(s)[b - a - 1] == s[b - 1];
    }
  }

  /** `strip()` returns a contiguous piece of its input with no whitespace at either end. */
  lemma StripSlice(s: string) returns (a: nat)
    ensures a + |Strip(s)| <= |s|
    ensures Strip(s) == s[a..a + |Strip(s)|]
    ensures IsStripped(Strip(s))
  {
    a := SkipFrom(s, IsSpace, 0);
    StripResultStripped(s);
  }

  /** Stripping cannot create an occurrence. */
  lemma NoOccurrenceStrip(s: string, p: string)
    requires NoOccurrence(s, p)
    ensures NoOccurrence(Strip(s), p)
  {
    var a := StripSlice(s);
    NoOccurrenceSlice(s, p, a, a + |Strip(s)|);
  }

  /** Stripping whitespace padding from a stripped string gives it back. */
  lemma StripPadded(left: string, t: string, right: string)
    requires AllSpace(left) && AllSpace(right) && IsStripped(t)
    ensures Strip(left + t + right) == t
  {
    var s := left + t + right;
    var n := |left| + |t|;
    forall i | n <= i < |s| ensures IsSpace(s[i]) {
      assert s[i] == right[i - n];
    }
    if t == [] {
      forall i | 0 <= i < |s| ensures IsSpace(s[i]) {
        if i < |left| { assert s[i] == left[i]; }
      }
      SkipFromUnique(s, IsSpace, 0, |s|);
      SkipBackUnique(s, IsSpace, |s|, |s|, |s|);
    } else {
      forall i | 0 <= i < |left| ensures IsSpace(s[i]) {
        assert s[i] == left[i];
      }
      assert s[|left|] == t[0];
      SkipFromUnique(s, IsSpace, 0, |left|);
      assert s[n - 1] == t[|t| - 1];
      SkipBackUnique(s, IsSpace, |left|, |s|, n);
      assert s[|left|..n] == t;
    }
  }

  /** Python's `sep.join(parts)`. */
  function Join(sep: string, parts: seq<string>): string
    decreases |parts|
  {
    if |parts| == 0 then ""
    else if |parts| == 1 then parts[0]
    else parts[0] + sep + Join(sep, parts[1..])
  }

  /** Concatenation of a sequence of strings, `"".join(parts)`. */
  function Concat(parts: seq<string>): string
    decreases |parts|
  {
    if |parts| == 0 then "" else parts[0] + Concat(parts[1..])
  }

  /** `Concat` of five pieces, written out. */
  lemma ConcatFive(a: string, b: string, c: string, d: string, e: string)
    ensures Concat([a, b, c, d, e]) == a + b + c + d + e
  {
    var ps := [a, b, c, d, e];
    assert ps[1..] == [b, c, d, e];
    assert ps[1..][1..] == [c, d, e];
    assert ps[1..][1..][1..] == [d, e];
    assert ps[1..][1..][1..][1..] == [e];
    assert ps[1..][1..][1..][1..][1..] == [];
    assert Concat([e]) == e;
    assert Concat([d, e]) == d + e;
    assert Concat([c, d, e]) == c + (d + e);
    assert Concat([b, c, d, e]) == b + (c + (d + e));
    assert Concat(ps) == a + (b + (c + (d + e)));
  }

  /** The piece between a fixed head and a fixed tail determines the whole: equal wholes, equal pieces. */
  lemma CancelAround(a: string, x: string, y: string, b: string, c: string)
    requires a + x + b + c == a + y + b + c
    ensures x == y
  {
    assert |x| == |y|;
    assert x == (a + x + b + c)[|a|..|a| + |x|];
    assert y == (a + y + b + c)[|a|..|a| + |y|];
  }
}
