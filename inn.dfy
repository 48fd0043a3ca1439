/**
 * INN, the taxpayer number: 10 digits for organisations (one control digit)
 * and 12 digits for individuals (two control digits), each a weighted digit
 * sum reduced modulo 11 with a remainder of 10 read as 0.
 */
module Inn {
  import opened Digits
  import opened Outcomes

  const Inn10Weights: seq<int> := [2, 4, 10, 3, 5, 9, 4, 6, 8, 0]
  const Inn12Weights: seq<int> := [3, 7, 2, 4, 10, 3, 5, 9, 4, 6, 8, 0]

  /** A sum reduced modulo 11, where a remainder of 10 becomes the digit 0. */
  function Mod11Control(sum: int): (c: nat)
    ensures c <= 9
    ensures sum % 11 <= 9 ==> c == sum % 11
    ensures sum % 11 == 10 ==> c == 0
  {
    var r := sum % 11;
    if r > 9 then r % 10 else r
  }

  // ----- INN-10 -----

  /** The verdict on a value handed to the 10-digit check. */
  function Inn10Result(value: string): (r: Outcome)
    ensures !IsNumeric(value) ==> r == Fail(InvalidCharacters)
    ensures IsNumeric(value) && |value| < 10 ==> r == Fail(TooFewCharacters)
    ensures r == Pass ==> IsNumeric(value) && |value| >= 10
    ensures r.Fail? ==> r.error in {InvalidCharacters, TooFewCharacters, InnInvalid}
  {
    if !IsNumeric(value) then Fail(InvalidCharacters)
    else if |value| < 10 then Fail(TooFewCharacters)
    else if DigitValue(value[9]) == Mod11Control(WeightedSum(value, Inn10Weights, 10)) then Pass
    else Fail(InnInvalid)
  }

  /**
   * The control digit of a 10-digit INN, from its first nine digits: the
   * value the check computes for every ten digits that start with them.
   */
  function Inn10ControlDigit(p: string): (c: nat)
    requires |p| == 9 && AllDigits(p)
    ensures c <= 9
    ensures forall v :: |v| == 10 && AllDigits(v) && v[..9] == p
                        ==> c == Mod11Control(WeightedSum(v, Inn10Weights, 10))
  {
    WeightedSumOfExtensions(p, Inn10Weights, 9);
    Mod11Control(WeightedSum(p, Inn10Weights, 9))
  }

  method ValidateInn10(value: string) returns (r: Outcome)
    ensures r == Inn10Result(value)
  {
    if !IsNumeric(value) {
      return Fail(InvalidCharacters);
    }
    if |value| < 10 {
      return Fail(TooFewCharacters);
    }
    var i := 0;
    var checkSum := 0;
    while i <= 9
      invariant 0 <= i <= 10
      invariant checkSum == WeightedSum(value, Inn10Weights, i)
    {
      checkSum := checkSum + DigitValue(value[i]) * Inn10Weights[i];
      i := i + 1;
    }
    var refValue := checkSum % 11;
    if refValue > 9 {
      refValue := refValue % 10;
    }
    if DigitValue(value[9]) == refValue {
      return Pass;
    } else {
      return Fail(InnInvalid);
    }
  }

  /**
   * Nine digits followed by a tenth pass exactly when the tenth is the
   * control digit of the nine: the tenth digit has weight 0 and never feeds
   * its own sum, so every nine-digit prefix has exactly one valid completion.
   */
  lemma Inn10Completion(p: string, d: char)
    requires |p| == 9 && AllDigits(p) && IsDigit(d)
    ensures Inn10Result(p + [d]) == Pass <==> DigitValue(d) == Inn10ControlDigit(p)
    ensures Inn10Result(p + [d]) != Pass ==> Inn10Result(p + [d]) == Fail(InnInvalid)
  {
    var v := p + [d];
    WeightedSumOfPrefix(v, p, Inn10Weights, 9);
  }

  /** "7707083893" weighs 267, and 267 mod 11 = 3 is its last digit. */
  lemma Inn10KnownValid()
    ensures Inn10Result("7707083893") == Pass
  {
    assert WeightedSum("7707083893", Inn10Weights, 10) == 267;
  }

  /** "1234567890" weighs 279, and 279 mod 11 = 4 is not its last digit. */
  lemma Inn10KnownInvalid()
    ensures Inn10Result("1234567890") == Fail(InnInvalid)
  {
    assert WeightedSum("1234567890", Inn10Weights, 10) == 279;
  }

  // ----- INN-12 -----

  /**
   * The verdict on a value handed to the 12-digit check. The routine checks
   * only the upper length bound; a shorter value would make it read past the
   * end of the string.
   */
  function Inn12Result(value: string): (r: Outcome)
    ensures !IsNumeric(value) ==> r == Fail(InvalidCharacters)
    ensures IsNumeric(value) && |value| > 12 ==> r == Fail(TooManyCharacters)
    ensures IsNumeric(value) && |value| < 12 ==> r == Fail(ReadPastEnd)
    ensures r == Pass ==> IsNumeric(value) && |value| == 12
    ensures r.Fail? ==> r.error in {InvalidCharacters, TooManyCharacters, ReadPastEnd, InnInvalid}
  {
    if !IsNumeric(value) then Fail(InvalidCharacters)
    else if |value| > 12 then Fail(TooManyCharacters)
    else if |value| < 12 then Fail(ReadPastEnd)
    else if DigitValue(value[10]) == Mod11Control(WeightedSum(value, Inn12Weights[1..], 11))
         && DigitValue(value[11]) == Mod11Control(WeightedSum(value, Inn12Weights, 12))
    then Pass
    else Fail(InnInvalid)
  }

  /**
   * The first control digit (position 10) of a 12-digit INN, from its first
   * ten digits: the value the first sum gives for every twelve digits that
   * start with them.
   */
  function Inn12FirstControlDigit(p: string): (c: nat)
    requires |p| == 10 && AllDigits(p)
    ensures c <= 9
    ensures forall v :: |v| == 12 && AllDigits(v) && v[..10] == p
                        ==> c == Mod11Control(WeightedSum(v, Inn12Weights[1..], 11))
  {
    WeightedSumOfExtensions(p, Inn12Weights[1..], 10);
    Mod11Control(WeightedSum(p, Inn12Weights[1..], 10))
  }

  /**
   * The second control digit (position 11), from the first eleven digits:
   * the value the second sum gives for every twelve digits that start with
   * them.
   */
  function Inn12SecondControlDigit(q: string): (c: nat)
    requires |q| == 11 && AllDigits(q)
    ensures c <= 9
    ensures forall v :: |v| == 12 && AllDigits(v) && v[..11] == q
                        ==> c == Mod11Control(WeightedSum(v, Inn12Weights, 12))
  {
    WeightedSumOfExtensions(q, Inn12Weights, 11);
    Mod11Control(WeightedSum(q, Inn12Weights, 11))
  }

  method ValidateInn12(value: string) returns (r: Outcome)
    ensures r == Inn12Result(value)
  {
    if !IsNumeric(value) {
      return Fail(InvalidCharacters);
    }
    if |value| > 12 {
      return Fail(TooManyCharacters);
    }
    if |value| < 12 {
      // the loops below would read past the end of the string
      return Fail(ReadPastEnd);
    }
    var i := 0;
    var checkSum1 := 0;
    while i <= 10
      invariant 0 <= i <= 11
      invariant checkSum1 == WeightedSum(value, Inn12Weights[1..], i)
    {
      checkSum1 := checkSum1 + DigitValue(value[i]) * Inn12Weights[i + 1];
      i := i + 1;
    }
    var refValue1 := checkSum1 % 11;
    if refValue1 > 9 {
      refValue1 := refValue1 % 10;
    }
    i := 0;
    var checkSum2 := 0;
    while i <= 11
      invariant 0 <= i <= 12
      invariant checkSum2 == WeightedSum(value, Inn12Weights, i)
    {
      checkSum2 := checkSum2 + DigitValue(value[i]) * Inn12Weights[i];
      i := i + 1;
    }
    var refValue2 := checkSum2 % 11;
    if refValue2 > 9 {
      refValue2 := refValue2 % 10;
    }
    if DigitValue(value[10]) == refValue1 && DigitValue(value[11]) == refValue2 {
      return Pass;
    } else {
      return Fail(InnInvalid);
    }
  }

  /**
   * Ten digits followed by two more pass exactly when the eleventh is the
   * first control digit of the ten and the twelfth the second control digit
   * of the eleven: each control digit has weight 0 in its own sum.
   */
  lemma Inn12Completion(p: string, a: char, b: char)
    requires |p| == 10 && AllDigits(p) && IsDigit(a) && IsDigit(b)
    ensures Inn12Result(p + [a, b]) == Pass
        <==> DigitValue(a) == Inn12FirstControlDigit(p)
             && DigitValue(b) == Inn12SecondControlDigit(p + [a])
    ensures Inn12Result(p + [a, b]) != Pass ==> Inn12Result(p + [a, b]) == Fail(InnInvalid)
  {
    var v := p + [a, b];
    WeightedSumOfPrefix(v, p, Inn12Weights[1..], 10);
    WeightedSumOfPrefix(v, p + [a], Inn12Weights, 11);
  }
}
