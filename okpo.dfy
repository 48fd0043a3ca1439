/**
 * OKPO, the 8-digit enterprise classifier code: the first seven digits are
 * weighted 1..7 and reduced modulo 11; a remainder of 10 falls back to a
 * second sum with weights 3..9.
 */
module Okpo {
  import opened Digits
  import opened Outcomes

  const OkpoWeights1: seq<int> := [1, 2, 3, 4, 5, 6, 7]
  const OkpoWeights2: seq<int> := [3, 4, 5, 6, 7, 8, 9]

  /**
   * The digit the eighth position must hold, computed from the first seven,
   * or 10 when both remainders are 10 (a value no digit equals).
   */
  function OkpoControl(p: string): (c: nat)
    requires |p| >= 7 && AllDigits(p)
    ensures c <= 10
    ensures c == 10 <==> WeightedSum(p, OkpoWeights1, 7) % 11 == 10
                         && WeightedSum(p, OkpoWeights2, 7) % 11 == 10
  {
    var r1 := WeightedSum(p, OkpoWeights1, 7) % 11;
    var r2 := WeightedSum(p, OkpoWeights2, 7) % 11;
    if r1 > 9 then r2 else r1
  }

  function OkpoResult(value: string): (r: Outcome)
    ensures !IsNumeric(value) ==> r == Fail(InvalidCharacters)
    ensures IsNumeric(value) && |value| < 8 ==> r == Fail(TooFewCharacters)
    ensures IsNumeric(value) && |value| > 8 ==> r == Fail(TooManyCharacters)
    ensures r == Pass ==> IsNumeric(value) && |value| == 8
    ensures r.Fail? ==> r.error in {InvalidCharacters, TooFewCharacters, TooManyCharacters, OkpoInvalid}
  {
    if !IsNumeric(value) then Fail(InvalidCharacters)
    else if |value| < 8 then Fail(TooFewCharacters)
    else if |value| > 8 then Fail(TooManyCharacters)
    else if DigitValue(value[7]) == OkpoControl(value) then Pass
    else Fail(OkpoInvalid)
  }

  method ValidateOkpo(value: string) returns (r: Outcome)
    ensures r == OkpoResult(value)
  {
    if !IsNumeric(value) {
      return Fail(InvalidCharacters);
    }
    if |value| < 8 {
      return Fail(TooFewCharacters);
    }
    if |value| > 8 {
      return Fail(TooManyCharacters);
    }
    var i := 0;
    var checkSum1 := 0;
    while i <= 6
      invariant 0 <= i <= 7
      invariant checkSum1 == WeightedSum(value, OkpoWeights1, i)
    {
      checkSum1 := checkSum1 + DigitValue(value[i]) * OkpoWeights1[i];
      i := i + 1;
    }
    var refValue1 := checkSum1 % 11;
    i := 0;
    var checkSum2 := 0;
    while i <= 6
      invariant 0 <= i <= 7
      invariant checkSum2 == WeightedSum(value, OkpoWeights2, i)
    {
      checkSum2 := checkSum2 + DigitValue(value[i]) * OkpoWeights2[i];
      i := i + 1;
    }
    var refValue2 := checkSum2 % 11;
    if refValue1 > 9 {
      if DigitValue(value[7]) == refValue2 {
        return Pass;
      } else {
        return Fail(OkpoInvalid);
      }
    } else {
      if DigitValue(value[7]) == refValue1 {
        return Pass;
      } else {
        return Fail(OkpoInvalid);
      }
    }
  }

  /**
   * Seven digits followed by an eighth pass exactly when the eighth equals
   * the first remainder, or, when that remainder is 10, the second one.
   */
  lemma OkpoCompletion(p: string, d: char)
    requires |p| == 7 && AllDigits(p) && IsDigit(d)
    ensures var r1 := WeightedSum(p, OkpoWeights1, 7) % 11;
            var r2 := WeightedSum(p, OkpoWeights2, 7) % 11;
            OkpoResult(p + [d]) == Pass
            <==> (r1 <= 9 && DigitValue(d) == r1) || (r1 == 10 && DigitValue(d) == r2)
    ensures OkpoResult(p + [d]) != Pass ==> OkpoResult(p + [d]) == Fail(OkpoInvalid)
  {
    var v := p + [d];
    WeightedSumOfPrefix(v, p, OkpoWeights1, 7);
    WeightedSumOfPrefix(v, p, OkpoWeights2, 7);
  }

  /**
   * When both remainders are 10 no eighth digit passes: the second
   * remainder is not mapped to 0.
   */
  lemma OkpoBothRemaindersTenNeverPass(p: string, d: char)
    requires |p| == 7 && AllDigits(p) && IsDigit(d)
    requires WeightedSum(p, OkpoWeights1, 7) % 11 == 10
    requires WeightedSum(p, OkpoWeights2, 7) % 11 == 10
    ensures OkpoResult(p + [d]) == Fail(OkpoInvalid)
  {
    OkpoCompletion(p, d);
  }

  /** "0000281" has both remainders 10 (65 and 87 modulo 11), so "00002810" is refused. */
  lemma OkpoBothRemaindersTenExample()
    ensures WeightedSum("0000281", OkpoWeights1, 7) == 65
    ensures WeightedSum("0000281", OkpoWeights2, 7) == 87
    ensures OkpoResult("00002810") == Fail(OkpoInvalid)
  {
    OkpoBothRemaindersTenNeverPass("0000281", '0');
    assert "0000281" + ['0'] == "00002810";
  }
}
