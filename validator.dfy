/**
 * The dispatcher of the requisites validator: it picks the check routine by
 * the configured type name, prepares what the routine receives (separator
 * stripping for SNILS, the 23-digit check string for bank accounts) and
 * returns the one error message the attribute gets, if any.
 */
module RequisitesCodeValidator {
  import opened Digits
  import opened Outcomes
  import opened Inn
  import opened Snils
  import opened Okpo
  import opened BankAccount
  import opened Ogrn

  /** The type a validator is configured with when none is given; no case matches it. */
  const DefaultType: string := "inn10"

  /** The type names the dispatcher has a case for. */
  const KnownTypes: set<string> := {"inn", "snils", "okpo", "kBank", "rBank", "ogrn"}

  /**
   * The string the bank-account check receives: "0" and the BIK's characters
   * at offsets 4 and 5 before a correspondent account, the BIK's characters
   * at offsets 6 to 8 before a settlement account. It ends with the account
   * and has the 3 extra characters the bank check needs exactly when the BIK
   * reaches offset 5 (correspondent) or offset 8 (settlement).
   */
  function CheckString(account: Account, bik: string, value: string): (r: string)
    ensures |value| <= |r| <= |value| + 3
    ensures r[|r| - |value|..] == value
    ensures account == Correspondent ==> |r| > |value| && r[0] == '0'
    ensures |r| == |value| + 3 <==> |bik| >= (if account == Correspondent then 6 else 9)
    ensures AllDigits(bik) && AllDigits(value) ==> AllDigits(r)
  {
    match account
    case Correspondent => "0" + Substr(bik, 4, 2) + value
    case Settlement => Substr(bik, 6, 3) + value
  }

  /** The two bank-account cases, which differ only in the account kind. */
  function AccountCheck(account: Account, value: string, bik: string): (r: Outcome)
    ensures r.Fail? ==> r.error in {BikNotSpecified, TooFewCharacters, TooManyCharacters}
                        || r.error.WithAccountSuffix?
    ensures r.Fail? && r.error.WithAccountSuffix? ==>
              r.error.account == account
              && r.error.base in {InvalidCharacters, ReadPastEnd, AccountInvalid}
  {
    if bik == "" then Fail(BikNotSpecified)
    else if |value| < 20 then Fail(TooFewCharacters)
    else if |value| > 20 then Fail(TooManyCharacters)
    else
      match BankAccountResult(CheckString(account, bik, value))
      case Pass => Pass
      case Fail(e) => Fail(WithAccountSuffix(e, account))
  }

  /**
   * The error the attribute gets (Pass: none) for the configured type name
   * `kind`, the attribute's `value`, the value of the BIK attribute `bik`
   * ("" when absent) and the `allowEmpty` setting.
   */
  function ValidateAttribute(kind: string, value: string, bik: string, allowEmpty: bool): (r: Outcome)
    ensures allowEmpty && value == "" ==> r == Pass
    ensures kind !in KnownTypes && value != "" ==> r == Pass
    ensures r == Fail(ValueNotSpecified) <==> !allowEmpty && value == "" && kind !in KnownTypes
  {
    if allowEmpty && value == "" then Pass
    else
      var msg := if value == "" then Fail(ValueNotSpecified) else Pass;
      if kind == "inn" then
        if |value| <= 10 then Inn10Result(value)
        else if |value| >= 12 then Inn12Result(value)
        else Fail(InnLengthNot10Or12)
      else if kind == "snils" then SnilsResult(StripSeparators(value))
      else if kind == "okpo" then OkpoResult(value)
      else if kind == "kBank" then AccountCheck(Correspondent, value, bik)
      else if kind == "rBank" then AccountCheck(Settlement, value, bik)
      else if kind == "ogrn" then OgrnResult(value)
      else msg
  }

  /** The default type checks nothing: only a forbidden empty value gets a message. */
  lemma DefaultTypeChecksNothing(value: string, bik: string, allowEmpty: bool)
    ensures ValidateAttribute(DefaultType, value, bik, allowEmpty)
         == if value == "" && !allowEmpty then Fail(ValueNotSpecified) else Pass
  {
  }

  // ----- INN -----

  /** An 11-character INN is a length error whatever its characters. */
  lemma InnLengthElevenRejected(value: string, bik: string, allowEmpty: bool)
    requires |value| == 11
    ensures ValidateAttribute("inn", value, bik, allowEmpty) == Fail(InnLengthNot10Or12)
  {
  }

  /**
   * Through the dispatcher an INN passes exactly when it has 10 characters
   * and passes the 10-digit check, or 12 and passes the 12-digit check; the
   * 12-digit check never reads past the end of the value.
   */
  lemma InnPassesOnlyAtTenOrTwelve(value: string, bik: string, allowEmpty: bool)
    requires value != ""
    ensures ValidateAttribute("inn", value, bik, allowEmpty) == Pass
        <==> (|value| == 10 && Inn10Result(value) == Pass)
             || (|value| == 12 && Inn12Result(value) == Pass)
    ensures ValidateAttribute("inn", value, bik, allowEmpty) != Fail(ReadPastEnd)
  {
  }

  // ----- character check -----

  /**
   * For INN (except at length 11), OKPO and OGRN a value with a character
   * other than a digit gets the invalid-characters message, whatever its
   * length. For SNILS see `SnilsInvalidCharactersWin`; for bank accounts the
   * BIK and length tests come first (`AccountPreconditionsOrder`).
   */
  lemma InvalidCharactersWin(kind: string, value: string, bik: string, allowEmpty: bool)
    requires kind == "inn" || kind == "okpo" || kind == "ogrn"
    requires value != "" && !IsNumeric(value)
    requires kind == "inn" ==> |value| != 11
    ensures ValidateAttribute(kind, value, bik, allowEmpty) == Fail(InvalidCharacters)
  {
  }

  /** An empty value that is not allowed reaches the routines, which refuse it on its characters. */
  lemma EmptyValueNotAllowed(kind: string, bik: string)
    requires kind in KnownTypes
    ensures ValidateAttribute(kind, "", bik, false)
         == if kind == "kBank" || kind == "rBank" then
              (if bik == "" then Fail(BikNotSpecified) else Fail(TooFewCharacters))
            else Fail(InvalidCharacters)
  {
    assert StripSeparators("") == "";
  }

  // ----- SNILS -----

  /**
   * A SNILS with a character that is neither a digit nor a separator gets
   * the invalid-characters message, whatever its length.
   */
  lemma SnilsInvalidCharactersWin(value: string, bik: string, allowEmpty: bool, k: nat)
    requires k < |value| && !IsDigit(value[k]) && !IsSeparator(value[k])
    ensures ValidateAttribute("snils", value, bik, allowEmpty) == Fail(InvalidCharacters)
  {
    var c, r := value[k], StripSeparators(value);
    StripSeparatorsKeepsOthers(value);
    assert multiset(value)[c] > 0;
    assert c in multiset(r);
    var j :| 0 <= j < |r| && r[j] == c;
    assert !AllDigits(r);
  }

  /**
   * Hyphens and spaces do not matter: a SNILS gets the same verdict as the
   * same value with its separators removed.
   */
  lemma SnilsSeparatorsIgnored(value: string, bik: string, allowEmpty: bool)
    requires StripSeparators(value) != ""
    ensures ValidateAttribute("snils", value, bik, allowEmpty)
         == ValidateAttribute("snils", StripSeparators(value), bik, allowEmpty)
         == SnilsResult(StripSeparators(value))
  {
    StripSeparatorsIdempotent(value);
  }

  /**
   * A SNILS made only of hyphens and spaces is not empty, so it is checked,
   * but it strips to the empty string and fails the character test.
   */
  lemma SnilsSeparatorsOnly(value: string, bik: string, allowEmpty: bool)
    requires value != "" && StripSeparators(value) == ""
    ensures ValidateAttribute("snils", value, bik, allowEmpty) == Fail(InvalidCharacters)
  {
  }

  // ----- bank accounts -----

  /**
   * With a BIK long enough for the account kind (6 characters for a
   * correspondent account, 9 for a settlement account) the check string is
   * three characters followed by the account: "0" and the BIK's offsets 4
   * and 5, or the BIK's offsets 6 to 8.
   */
  lemma CheckStringLayout(account: Account, bik: string, value: string)
    requires account == Correspondent ==> |bik| >= 6
    requires account == Settlement ==> |bik| >= 9
    ensures |CheckString(account, bik, value)| == |value| + 3
    ensures CheckString(account, bik, value)[3..] == value
    ensures account == Correspondent ==> CheckString(account, bik, value)[..3] == ['0', bik[4], bik[5]]
    ensures account == Settlement ==> CheckString(account, bik, value)[..3] == [bik[6], bik[7], bik[8]]
  {
    var s := CheckString(account, bik, value);
    if account == Correspondent {
      assert s == ['0'] + Substr(bik, 4, 2) + value;
    } else {
      assert s == Substr(bik, 6, 3) + value;
    }
  }

  /**
   * A bank account is refused for a missing BIK before its length is looked
   * at, then for being shorter or longer than 20 characters.
   */
  lemma AccountPreconditionsOrder(kind: string, value: string, bik: string, allowEmpty: bool)
    requires kind == "kBank" || kind == "rBank"
    requires value != "" || !allowEmpty
    ensures bik == "" ==> ValidateAttribute(kind, value, bik, allowEmpty) == Fail(BikNotSpecified)
    ensures bik != "" && |value| < 20 ==> ValidateAttribute(kind, value, bik, allowEmpty) == Fail(TooFewCharacters)
    ensures bik != "" && |value| > 20 ==> ValidateAttribute(kind, value, bik, allowEmpty) == Fail(TooManyCharacters)
  {
  }

  /**
   * With a 20-character account and a BIK long enough for the account kind,
   * the account passes exactly when its 23-character check string passes,
   * and a failure of the check carries the suffix of the account kind.
   */
  lemma AccountSuffixOnlyOnFailure(account: Account, value: string, bik: string, allowEmpty: bool)
    requires |bik| >= (if account == Correspondent then 6 else 9) && |value| == 20
    ensures var r := ValidateAttribute(if account == Correspondent then "kBank" else "rBank", value, bik, allowEmpty);
            var check := BankAccountResult(CheckString(account, bik, value));
            && (r == Pass <==> check == Pass)
            && (r != Pass ==> r == Fail(WithAccountSuffix(check.error, account)))
            && (r != Pass ==> check.error in {InvalidCharacters, AccountInvalid})
  {
  }

  /**
   * With a digit BIK too short for the account kind the check string has
   * fewer than 23 digits, and the bank check reads past its end.
   */
  lemma AccountShortBikReadsPastEnd(account: Account, value: string, bik: string)
    requires bik != "" && AllDigits(bik) && |value| == 20 && AllDigits(value)
    requires |bik| < (if account == Correspondent then 6 else 9)
    ensures AccountCheck(account, value, bik) == Fail(WithAccountSuffix(ReadPastEnd, account))
  {
  }

  /**
   * A passing account with one digit mistyped is refused: the check string
   * differs from the passing one in exactly that position.
   */
  lemma AccountSingleDigitErrorDetected(account: Account, value: string, typo: string, bik: string, k: nat)
    requires |bik| >= (if account == Correspondent then 6 else 9) && |value| == 20
    requires |typo| == 20 && AllDigits(typo) && k < 20 && value[k] != typo[k]
    requires forall i :: 0 <= i < 20 && i != k ==> value[i] == typo[i]
    requires AccountCheck(account, value, bik) == Pass
    ensures AccountCheck(account, typo, bik) == Fail(WithAccountSuffix(AccountInvalid, account))
  {
    var s := CheckString(account, bik, value);
    var t := CheckString(account, bik, typo);
    assert IsNumeric(s);
    CheckStringLayout(account, bik, value);
    CheckStringLayout(account, bik, typo);
    assert s[..3] == t[..3];
    forall i | 0 <= i < 23
      ensures IsDigit(s[i]) && IsDigit(t[i])
      ensures i != k + 3 ==> s[i] == t[i]
    {
      if i < 3 {
        assert s[i] == s[..3][i] && t[i] == t[..3][i];
      } else {
        assert s[i] == s[3..][i - 3] && t[i] == t[3..][i - 3];
      }
    }
    assert s[k + 3] == value[k] && t[k + 3] == typo[k] by {
      assert s[k + 3] == s[3..][k] && t[k + 3] == t[3..][k];
    }
    SingleDigitErrorDetected(s, t, k + 3);
  }
}
