/**
 * The bank-account check: a 23-digit string (three digits taken from the
 * BIK, then the 20-digit account) weighted 7, 1, 3, 7, 1, 3, ... passes when
 * its weighted sum is a multiple of 10.
 */
module BankAccount {
  import opened Digits
  import opened Outcomes

  const BankWeights: seq<int> :=
    [7, 1, 3, 7, 1, 3, 7, 1, 3, 7, 1, 3, 7, 1, 3, 7, 1, 3, 7, 1, 3, 7, 1]

  /**
   * The verdict on a check string. The routine checks no length; a string
   * shorter than 23 characters would make it read past the end.
   */
  function BankAccountResult(value: string): (r: Outcome)
    ensures !IsNumeric(value) ==> r == Fail(InvalidCharacters)
    ensures IsNumeric(value) && |value| < 23 ==> r == Fail(ReadPastEnd)
    ensures r == Pass ==> IsNumeric(value) && |value| >= 23
    ensures r.Fail? ==> r.error in {InvalidCharacters, ReadPastEnd, AccountInvalid}
  {
    if !IsNumeric(value) then Fail(InvalidCharacters)
    else if |value| < 23 then Fail(ReadPastEnd)
    else if WeightedSum(value, BankWeights, 23) % 10 == 0 then Pass
    else Fail(AccountInvalid)
  }

  method ValidateBankAccount(value: string) returns (r: Outcome)
    ensures r == BankAccountResult(value)
  {
    if !IsNumeric(value) {
      return Fail(InvalidCharacters);
    }
    if |value| < 23 {
      // the loop below would read past the end of the string
      return Fail(ReadPastEnd);
    }
    var i := 0;
    var checkSum := 0;
    while i <= 22
      invariant 0 <= i <= 23
      invariant checkSum == WeightedSum(value, BankWeights, i)
    {
      checkSum := checkSum + DigitValue(value[i]) * BankWeights[i];
      i := i + 1;
    }
    var refValue := checkSum % 10;
    if refValue == 0 {
      return Pass;
    } else {
      return Fail(AccountInvalid);
    }
  }

  /** The weights repeat the cycle 7, 1, 3. */
  lemma BankWeightsCycle(k: nat)
    requires k < 23
    ensures BankWeights[k] == [7, 1, 3][k % 3]
    ensures BankWeights[k] == 7 || BankWeights[k] == 1 || BankWeights[k] == 3
  {
  }

  /** The all-zero check string passes. */
  lemma AllZeroAccountPasses(value: string)
    requires |value| == 23
    requires forall i :: 0 <= i < |value| ==> value[i] == '0'
    ensures BankAccountResult(value) == Pass
  {
    WeightedSumOfZeros(value, BankWeights, 23);
  }

  /** A weight 7, 1 or 3 times a non-zero digit difference is never a multiple of 10. */
  lemma WeightTimesDifference(w: int, delta: int)
    requires w == 7 || w == 1 || w == 3
    requires -9 <= delta <= 9 && delta != 0
    ensures (w * delta) % 10 != 0
  {
    if w == 7 {
      assert w * delta == 7 * delta;
    } else if w == 3 {
      assert w * delta == 3 * delta;
    }
  }

  /**
   * Every weight (7, 1 or 3) is prime to 10, so changing any one digit of a
   * passing 23-digit string makes it fail.
   */
  lemma SingleDigitErrorDetected(s: string, t: string, k: nat)
    requires |s| == 23 && |t| == 23 && AllDigits(s) && AllDigits(t)
    requires k < 23 && s[k] != t[k]
    requires forall i :: 0 <= i < 23 && i != k ==> s[i] == t[i]
    requires BankAccountResult(s) == Pass
    ensures BankAccountResult(t) == Fail(AccountInvalid)
  {
    WeightedSumOneChange(s, t, BankWeights, 23, k);
    var dt, ds := DigitValue(t[k]), DigitValue(s[k]);
    assert DigitChar(dt) == t[k] && DigitChar(ds) == s[k];
    BankWeightsCycle(k);
    var w := BankWeights[k];
    var x := w * (dt as int - ds as int);
    WeightTimesDifference(w, dt as int - ds as int);
    ShiftKeepsNonMultiple(WeightedSum(s, BankWeights, 23), x);
  }

  /** Adding a non-multiple of 10 to a multiple of 10 gives a non-multiple. */
  lemma ShiftKeepsNonMultiple(a: int, x: int)
    requires a % 10 == 0 && x % 10 != 0
    ensures (a + x) % 10 != 0
  {
  }

  /**
   * Twenty-two digits followed by a last one (weight 1) pass exactly when
   * the last digit brings the weighted sum up to a multiple of 10.
   */
  lemma BankAccountCompletion(p: string, d: char)
    requires |p| == 22 && AllDigits(p) && IsDigit(d)
    ensures BankAccountResult(p + [d]) == Pass
        <==> DigitValue(d) == (10 - WeightedSum(p, BankWeights, 22) % 10) % 10
    ensures BankAccountResult(p + [d]) != Pass ==> BankAccountResult(p + [d]) == Fail(AccountInvalid)
  {
    var v := p + [d];
    assert AllDigits(v) && v[22] == d;
    WeightedSumOfPrefix(v, p, BankWeights, 22);
    assert WeightedSum(v, BankWeights, 23) == WeightedSum(p, BankWeights, 22) + DigitValue(d);
    CompletesToMultipleOfTen(WeightedSum(p, BankWeights, 22), DigitValue(d));
  }

  /** Exactly one digit brings a sum up to a multiple of 10. */
  lemma CompletesToMultipleOfTen(a: int, x: int)
    requires 0 <= x <= 9
    ensures (a + x) % 10 == 0 <==> x == (10 - a % 10) % 10
  {
  }
}
