/** Decimal rendering of natural numbers, as Python's `str(n)` and f-strings print them. */
module Decimal {
  import opened Strings

  predicate IsDigit(c: char) {
    '0' <= c <= '9'
  }

  predicate AllDigits(s: string) {
    forall i :: 0 <= i < |s| ==> IsDigit(s[i])
  }

  function DigitChar(d: nat): (c: char)
    requires d < 10
    ensures IsDigit(c)
  {
    ('0' as int + d) as char
  }

  /** The number a digit string denotes, read most significant digit first. */
  function Value(s: string): nat
    requires AllDigits(s)
    decreases |s|
  {
    if |s| == 0 then 0
    else Value(s[..|s| - 1]) * 10 + (s[|s| - 1] as int - '0' as int)
  }

  /** `str(n)`: the shortest digit string denoting `n`. */
  function Show(n: nat): (r: string)
    ensures |r| > 0 && AllDigits(r)
    ensures Value(r) == n
    ensures |r| > 1 ==> r[0] != '0'
    decreases n
  {
    if n < 10 then [DigitChar(n)]
    else
      var prefix := Show(n / 10);
      var r := prefix + [DigitChar(n % 10)];
      assert r[..|r| - 1] == prefix;
      r
  }

  /** Different numbers print differently. */
  lemma ShowInjective(m: nat, n: nat)
    requires Show(m) == Show(n)
    ensures m == n
  {
  }

  /** Splits `s` into its longest all-digit prefix and the rest. */
  function SplitDigits(s: string): (r: (string, string))
    ensures AllDigits(r.0) && r.0 + r.1 == s
    ensures r.1 == [] || !IsDigit(r.1[0])
  {
    var k := SkipFrom(s, IsDigit, 0);
    var digits := s[..k];
    assert AllDigits(digits) by {
      forall i | 0 <= i < k ensures IsDigit(digits[i]) {
        assert digits[i] == s[i];
      }
    }
    assert digits + s[k..] == s;
    (digits, s[k..])
  }

  /** A printed number followed by a non-digit splits back into the number and the rest. */
  lemma SplitShow(n: nat, rest: string)
    requires rest == [] || !IsDigit(rest[0])
    ensures SplitDigits(Show(n) + rest) == (Show(n), rest)
  {
    var s := Show(n) + rest;
    var k := |Show(n)|;
    forall i | 0 <= i < k ensures IsDigit(s[i]) {
      assert s[i] == Show(n)[i];
    }
    if rest != [] {
      assert s[k] == rest[0];
    }
    SkipFromUnique(s, IsDigit, 0, k);
    assert s[k..] == rest;
    assert s[..k] == Show(n);
  }
}
