/**
 * OGRN (13 digits) and OGRNIP (15 digits), the state registration numbers:
 * the number formed by all digits but the last, reduced modulo 11 (a
 * remainder of 10 read as 0), must equal the last digit. The same modulus
 * 11 serves both lengths.
 */
module Ogrn {
  import opened Digits
  import opened Outcomes

  /**
   * `check - floor(check / 11) * 11`: the remainder written with a floor
   * division. For a non-negative prefix it is the remainder modulo 11.
   */
  function FloorRemainder11(check: nat): (c: nat)
    ensures c == check % 11
    ensures c <= 10
  {
    check - (check / 11) * 11
  }

  /** The digit the last position must hold, computed from the other digits. */
  function OgrnControl(p: string): (c: nat)
    requires AllDigits(p)
    ensures c <= 9
    ensures NumberValue(p) % 11 <= 9 ==> c == NumberValue(p) % 11
    ensures NumberValue(p) % 11 == 10 ==> c == 0
  {
    var checkValue := FloorRemainder11(NumberValue(p));
    if checkValue == 10 then 0 else checkValue
  }

  function OgrnResult(value: string): (r: Outcome)
    ensures !IsNumeric(value) ==> r == Fail(InvalidCharacters)
    ensures r == Pass ==> IsNumeric(value) && (|value| == 13 || |value| == 15)
    ensures IsNumeric(value) && |value| != 13 && |value| != 15 ==> r == Fail(OgrnLengthNot13Or15)
    ensures r.Fail? ==> r.error in {InvalidCharacters, OgrnLengthNot13Or15, OgrnInvalid}
  {
    if !IsNumeric(value) then Fail(InvalidCharacters)
    else if |value| == 13 then
      (if OgrnControl(value[..12]) == DigitValue(value[12]) then Pass else Fail(OgrnInvalid))
    else if |value| == 15 then
      (if OgrnControl(value[..14]) == DigitValue(value[14]) then Pass else Fail(OgrnInvalid))
    else Fail(OgrnLengthNot13Or15)
  }

  /**
   * A 12- or 14-digit prefix followed by one more digit passes exactly when
   * that digit is the prefix's remainder modulo 11, with 10 read as 0; so
   * every prefix has exactly one valid last digit.
   */
  lemma OgrnCompletion(p: string, d: char)
    requires (|p| == 12 || |p| == 14) && AllDigits(p) && IsDigit(d)
    ensures OgrnResult(p + [d]) == Pass
        <==> DigitValue(d) == (if NumberValue(p) % 11 == 10 then 0 else NumberValue(p) % 11)
    ensures OgrnResult(p + [d]) != Pass ==> OgrnResult(p + [d]) == Fail(OgrnInvalid)
  {
    var v := p + [d];
    assert v[..|p|] == p;
  }

  /** The 12-digit prefix "000000000010" is the number 10. */
  lemma PrefixTen()
    ensures NumberValue("000000000010") == 10
  {
    assert "000000000010"[..11] == "00000000001";
    assert "00000000001"[..10] == "0000000000";
    NumberValueOfZeros("0000000000");
  }

  /** The prefix 10 leaves remainder 10, read as 0, so "0000000000100" passes. */
  lemma OgrnRemainderTenExample()
    ensures OgrnResult("0000000000100") == Pass
  {
    PrefixTen();
    OgrnCompletion("000000000010", '0');
    assert "000000000010" + ['0'] == "0000000000100";
  }
}
