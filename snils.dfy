/**
 * SNILS, the 11-digit pension insurance number: nine digits weighted 9 down
 * to 1, the sum taken modulo 101 and compared, as an integer, with the
 * two-digit number formed by the last two digits.
 */
module Snils {
  import opened Digits
  import opened Outcomes

  const SnilsWeights: seq<int> := [9, 8, 7, 6, 5, 4, 3, 2, 1]

  /** The characters removed before the check: hyphen and space, never a digit. */
  predicate IsSeparator(c: char): (b: bool)
    ensures b ==> !IsDigit(c)
  {
    c == '-' || c == ' '
  }

  /** The value with every hyphen and space removed, the rest kept in order. */
  function StripSeparators(s: string): (r: string)
    ensures |r| <= |s|
    ensures forall i :: 0 <= i < |r| ==> !IsSeparator(r[i])
  {
    if s == [] then []
    else (if IsSeparator(s[0]) then [] else [s[0]]) + StripSeparators(s[1..])
  }

  /**
   * Stripping keeps every occurrence of every other character: the multiset
   * of the result is that of the value without its hyphens and spaces.
   */
  lemma {:induction false} StripSeparatorsKeepsOthers(s: string)
    ensures forall c :: multiset(StripSeparators(s))[c] == if IsSeparator(c) then 0 else multiset(s)[c]
  {
    if s != [] {
      StripSeparatorsKeepsOthers(s[1..]);
      assert s == [s[0]] + s[1..];
    }
  }

  /** Removing separators a second time changes nothing. */
  lemma {:induction false} StripSeparatorsIdempotent(s: string)
    ensures StripSeparators(StripSeparators(s)) == StripSeparators(s)
  {
    if s != [] {
      StripSeparatorsIdempotent(s[1..]);
      StripSeparatorsAppend(if IsSeparator(s[0]) then [] else [s[0]], StripSeparators(s[1..]));
    }
  }

  /** Stripping distributes over concatenation. */
  lemma {:induction false} StripSeparatorsAppend(a: string, b: string)
    ensures StripSeparators(a + b) == StripSeparators(a) + StripSeparators(b)
  {
    if a != [] {
      assert (a + b)[1..] == a[1..] + b;
      StripSeparatorsAppend(a[1..], b);
    } else {
      assert a + b == b;
    }
  }

  /** The verdict on an (already stripped) value handed to the SNILS check. */
  function SnilsResult(value: string): (r: Outcome)
    ensures !IsNumeric(value) ==> r == Fail(InvalidCharacters)
    ensures IsNumeric(value) && |value| < 11 ==> r == Fail(TooFewCharacters)
    ensures IsNumeric(value) && |value| > 11 ==> r == Fail(TooManyCharacters)
    ensures r == Pass ==> IsNumeric(value) && |value| == 11
    ensures r.Fail? ==> r.error in {InvalidCharacters, TooFewCharacters, TooManyCharacters, SnilsInvalid}
  {
    if !IsNumeric(value) then Fail(InvalidCharacters)
    else if |value| < 11 then Fail(TooFewCharacters)
    else if |value| > 11 then Fail(TooManyCharacters)
    else if NumberValue(value[9..11]) == WeightedSum(value, SnilsWeights, 9) % 101 then Pass
    else Fail(SnilsInvalid)
  }

  method ValidateSnils(value: string) returns (r: Outcome)
    ensures r == SnilsResult(value)
  {
    if !IsNumeric(value) {
      return Fail(InvalidCharacters);
    }
    if |value| < 11 {
      return Fail(TooFewCharacters);
    }
    if |value| > 11 {
      return Fail(TooManyCharacters);
    }
    var i := 0;
    var checkSum := 0;
    while i <= 8
      invariant 0 <= i <= 9
      invariant checkSum == WeightedSum(value, SnilsWeights, i)
    {
      checkSum := checkSum + DigitValue(value[i]) * SnilsWeights[i];
      i := i + 1;
    }
    var refValue := checkSum % 101;
    if NumberValue(value[9..11]) == refValue {
      return Pass;
    } else {
      return Fail(SnilsInvalid);
    }
  }

  /**
   * Nine digits followed by two more pass exactly when the two, read as a
   * number, equal the weighted sum of the nine modulo 101.
   */
  lemma SnilsCompletion(p: string, q: string)
    requires |p| == 9 && AllDigits(p) && |q| == 2 && AllDigits(q)
    ensures SnilsResult(p + q) == Pass <==> NumberValue(q) == WeightedSum(p, SnilsWeights, 9) % 101
    ensures SnilsResult(p + q) != Pass ==> SnilsResult(p + q) == Fail(SnilsInvalid)
  {
    var v := p + q;
    assert v[9..11] == q;
    WeightedSumOfPrefix(v, p, SnilsWeights, 9);
  }

  /**
   * A weighted sum whose remainder modulo 101 is 100 has no valid pair of
   * control digits: no two-digit number reaches 100, and the remainder is
   * not mapped to 00.
   */
  lemma SnilsRemainder100NeverPasses(p: string, q: string)
    requires |p| == 9 && AllDigits(p) && |q| == 2 && AllDigits(q)
    requires WeightedSum(p, SnilsWeights, 9) % 101 == 100
    ensures SnilsResult(p + q) == Fail(SnilsInvalid)
  {
    SnilsCompletion(p, q);
    assert NumberValue(q) < Pow10(2) == 100;
  }

  /** "920000011" weighs 9*9 + 2*8 + 1*2 + 1*1 = 100, so "92000001100" is refused. */
  lemma SnilsRemainder100Example()
    ensures WeightedSum("920000011", SnilsWeights, 9) == 100
    ensures SnilsResult("92000001100") == Fail(SnilsInvalid)
  {
    SnilsRemainder100NeverPasses("920000011", "00");
    assert "920000011" + "00" == "92000001100";
  }

  /** "112-233-445 95" stripped: 1*9 + 1*8 + 2*7 + 2*6 + 3*5 + 3*4 + 4*3 + 4*2 + 5*1 = 95. */
  lemma SnilsKnownValue()
    ensures SnilsResult("11223344595") == Pass
  {
    assert WeightedSum("11223344595", SnilsWeights, 9) == 95;
    assert "11223344595"[9..11] == "95";
    assert NumberValue("95") == 95 by {
      assert "95"[..1] == "9";
    }
  }
}
