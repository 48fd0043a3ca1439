/**
 * Digit-string utilities shared by every check routine of the requisites
 * validator: the character test that stands in for PHP's `is_numeric`, the
 * value of one digit and of a digit string, PHP's `substr` for non-negative
 * offsets, and the weighted digit sum that every checksum accumulates.
 *
 * PHP strings are byte strings: here each `char` of a `string` stands for one
 * byte of the PHP value, so `|s|` is PHP's `strlen(s)` and a slice is its
 * `substr`. A multibyte UTF-8 character is passed as its bytes.
 */
module Digits {

  predicate IsDigit(c: char) {
    '0' <= c <= '9'
  }

  predicate AllDigits(s: string) {
    forall i :: 0 <= i < |s| ==> IsDigit(s[i])
  }

  /**
   * The character test every routine runs first: a non-empty string of ASCII
   * digits, that is, the zero-padded decimal rendering of some number.
   */
  predicate IsNumeric(s: string): (b: bool)
    ensures b <==> s != [] && exists v: nat :: DigitsOf(v, |s|) == s
  {
    if s != [] && AllDigits(s) then NumberValueRoundTrip(s); true else false
  }

  /** The integer a one-character digit string converts to in arithmetic. */
  function DigitValue(c: char): (d: nat)
    requires IsDigit(c)
    ensures d <= 9
    ensures DigitChar(d) == c
  {
    c as int - '0' as int
  }

  function DigitChar(d: nat): (c: char)
    requires d <= 9
    ensures IsDigit(c)
  {
    (d + '0' as int) as char
  }

  function Pow10(n: nat): (p: nat)
    ensures p >= 1
  {
    if n == 0 then 1 else 10 * Pow10(n - 1)
  }

  /** The integer a digit string converts to (most significant digit first). */
  function NumberValue(s: string): (v: nat)
    requires AllDigits(s)
    ensures v < Pow10(|s|)
  {
    if s == [] then 0
    else NumberValue(s[..|s| - 1]) * 10 + DigitValue(s[|s| - 1])
  }

  /**
   * PHP's `substr(s, start, len)` for non-negative `start` and `len`: the
   * characters from `start` on, at most `len` of them, and none at all when
   * `start` lies at or past the end of the string.
   */
  function Substr(s: string, start: nat, len: nat): (r: string)
    ensures |r| == if start >= |s| then 0 else if start + len <= |s| then len else |s| - start
    ensures forall i :: 0 <= i < |r| ==> r[i] == s[start + i]
  {
    if start >= |s| then ""
    else if start + len <= |s| then s[start..start + len]
    else s[start..]
  }

  /** Σ digit(s[i]) * w[i] over the first `n` positions. */
  function WeightedSum(s: string, w: seq<int>, n: nat): (r: int)
    requires n <= |s| && n <= |w| && AllDigits(s)
    ensures (forall i :: 0 <= i < n ==> 0 <= w[i] <= 10) ==> 0 <= r <= 90 * n
  {
    if n == 0 then 0
    else
      var d := DigitValue(s[n - 1]);
      DigitTimesWeightBound(d, w[n - 1]);
      WeightedSum(s, w, n - 1) + d * w[n - 1]
  }

  lemma DigitTimesWeightBound(d: int, x: int)
    requires 0 <= d <= 9
    ensures 0 <= x <= 10 ==> 0 <= d * x <= 90
  {
    if 0 <= x <= 10 {
      assert d * x <= 9 * x;
    }
  }

  /** The last `k` decimal digits of `v`, zero-padded to exactly `k` characters. */
  function DigitsOf(v: nat, k: nat): (s: string)
    ensures |s| == k && AllDigits(s)
  {
    if k == 0 then [] else DigitsOf(v / 10, k - 1) + [DigitChar(v % 10)]
  }

  /** A digit string is the zero-padded rendering of the number it converts to. */
  lemma {:induction false} NumberValueRoundTrip(s: string)
    requires AllDigits(s)
    ensures DigitsOf(NumberValue(s), |s|) == s
  {
    if s != [] {
      var p, d := s[..|s| - 1], DigitValue(s[|s| - 1]);
      NumberValueRoundTrip(p);
      var v := NumberValue(s);
      assert v / 10 == NumberValue(p) && v % 10 == d;
      assert s == p + [s[|s| - 1]];
    }
  }

  /** The weighted sum over `n` positions reads only those positions. */
  lemma {:induction false} WeightedSumOfPrefix(s: string, t: string, w: seq<int>, n: nat)
    requires n <= |s| && n <= |t| && n <= |w| && AllDigits(s) && AllDigits(t)
    requires forall i :: 0 <= i < n ==> s[i] == t[i]
    ensures WeightedSum(s, w, n) == WeightedSum(t, w, n)
  {
    if n > 0 {
      WeightedSumOfPrefix(s, t, w, n - 1);
    }
  }

  /**
   * Changing the digit at one position k changes the weighted sum by exactly
   * w[k] times the change of that digit.
   */
  lemma {:induction false} WeightedSumOneChange(s: string, t: string, w: seq<int>, n: nat, k: nat)
    requires n <= |s| && n <= |t| && n <= |w| && AllDigits(s) && AllDigits(t)
    requires k < n
    requires forall i :: 0 <= i < n && i != k ==> s[i] == t[i]
    ensures WeightedSum(t, w, n) - WeightedSum(s, w, n)
         == w[k] * (DigitValue(t[k]) - DigitValue(s[k]))
  {
    if k == n - 1 {
      WeightedSumOfPrefix(s, t, w, n - 1);
      var dt, ds := DigitValue(t[k]), DigitValue(s[k]);
      assert w[k] * (dt - ds) == dt * w[k] - ds * w[k];
    } else {
      WeightedSumOneChange(s, t, w, n - 1, k);
      assert s[n - 1] == t[n - 1];
    }
  }

  /** A string of zeros has weighted sum 0, whatever the weights. */
  lemma {:induction false} WeightedSumOfZeros(s: string, w: seq<int>, n: nat)
    requires n <= |s| && n <= |w|
    requires forall i :: 0 <= i < |s| ==> s[i] == '0'
    ensures AllDigits(s) && WeightedSum(s, w, n) == 0
  {
    if n > 0 {
      WeightedSumOfZeros(s, w, n - 1);
    }
  }

  /** A string of zeros converts to 0. */
  lemma {:induction false} NumberValueOfZeros(s: string)
    requires forall i :: 0 <= i < |s| ==> s[i] == '0'
    ensures AllDigits(s) && NumberValue(s) == 0
  {
    if s != [] {
      NumberValueOfZeros(s[..|s| - 1]);
    }
  }

  /**
   * Every digit string that starts with the first `n` characters of `p` has
   * the same weighted sum over `n` positions as `p`.
   */
  lemma WeightedSumOfExtensions(p: string, w: seq<int>, n: nat)
    requires n <= |p| && n <= |w| && AllDigits(p)
    ensures forall q :: n <= |q| && AllDigits(q) && q[..n] == p[..n]
                        ==> WeightedSum(q, w, n) == WeightedSum(p, w, n)
  {
    forall q | n <= |q| && AllDigits(q) && q[..n] == p[..n]
      ensures WeightedSum(q, w, n) == WeightedSum(p, w, n)
    {
      forall i | 0 <= i < n
        ensures q[i] == p[i]
      {
        assert q[i] == q[..n][i] && p[i] == p[..n][i];
      }
      WeightedSumOfPrefix(q, p, w, n);
    }
  }
}
