# Requisites code validator — a Dafny model

This project models the checksum core of `RequisitesCodeValidator`, a form
validator for Russian requisite codes. It covers the six check routines and the
dispatcher that chooses between them:

- INN, the taxpayer number, in its 10- and 12-digit forms;
- SNILS, the pension insurance number;
- OKPO, the enterprise classifier code;
- the 20-digit correspondent and settlement bank accounts, checked together with the bank's BIK;
- OGRN and OGRNIP, the state registration numbers.

Files:

- `digits.dfy` (module `Digits`) holds the shared pieces:
  - the character test;
  - the value of a digit and of a digit string;
  - PHP's `substr`;
  - `WeightedSum(s, w, n)`, the sum Σ digit(s[i])·w[i] over i < n that every routine accumulates.
- `outcomes.dfy` (module `Outcomes`) holds the outcome of a check: `Pass`, or `Fail` with one tag per distinct error message.
- `inn.dfy`, `snils.dfy`, `okpo.dfy`, `bank_account.dfy` hold one routine each. Each file has:
  - a specification function (`Inn10Result`, …) that gives the verdict on a value;
  - a method (`ValidateInn10`, …) with the routine's own `while ($i <= n)` loops, whose invariants tie the running `checkSum` to `WeightedSum`, proved to return that verdict;
  - lemmas on what the verdict means. A "completion" lemma says which control digits a given prefix accepts. The routine's quirks get lemmas too.
- `ogrn.dfy` (module `Ogrn`) holds the OGRN check, which has no loop and is a function only.
- `validator.dfy` (module `RequisitesCodeValidator`) holds `ValidateAttribute`, the dispatcher. It is a pure function of the configured type name, the value, the BIK value and `allowEmpty`, and returns the message the attribute would get. Its lemmas cover:
  - routing;
  - the order of the checks;
  - how the bank-account check string is built;
  - that a single mistyped digit in a bank account is always detected.

PHP strings are byte strings. In the model each `char` of a Dafny `string`
stands for one byte of the PHP value, so a multibyte UTF-8 character is passed
as its bytes. Under this reading `|s|` is PHP's `strlen($s)` and `Substr` is
PHP's `substr`, both counting bytes, exactly as the source does.

Several things are modelled as the code does them, not as the published
algorithms describe them:

- **SNILS.** The SNILS remainder modulo 101 is compared with the last two digits as an integer. A remainder of 100 is never mapped to 00, so no value with that remainder passes. `SnilsRemainder100Example` shows this on `92000001100`.
- **OKPO.** When both OKPO remainders are 10, no eighth digit passes. `OkpoBothRemaindersTenExample` shows this on `00002810`.
- **OGRNIP.** The 15-digit OGRNIP uses modulus 11, the same as the 13-digit OGRN.
- **INN routing.** INN values of length 10 or less go to the 10-digit check. Values of length 12 or more go to the 12-digit check. Length 11 is a length error.
- **Unknown type.** The default type name `inn10` matches no case. Neither does any other unknown name. With such a type nothing is checked. The "value not specified" message is given only when the value is empty and empty values are not allowed; every known type replaces that message with its own routine's verdict.
- **Empty values.** A value counts as empty only when it is the empty string. Whitespace is not trimmed. This follows the framework's emptiness test.

## Model

| member | source | states |
|---|---|---|
| `Digits.IsNumeric` | RequisitesCodeValidator.php:136 | a value passes the character test iff it is non-empty and is the zero-padded decimal rendering of some number, i.e. it consists of ASCII digits only |
| `Digits.DigitValue` | RequisitesCodeValidator.php:154 | a one-digit string converts to a number 0..9, and converting it back gives the same character |
| `Digits.NumberValue` | RequisitesCodeValidator.php:279 | a digit string converts to a number below 10^length |
| `Digits.NumberValueRoundTrip` | RequisitesCodeValidator.php:279 | a digit string is the zero-padded rendering of the number it converts to, leading zeros included |
| `Digits.Substr` | RequisitesCodeValidator.php:82 | `substr(s, start, len)` has length `len` clipped to the end of `s` (empty past the end), and its i-th character is `s[start + i]` |
| `Digits.WeightedSum` | RequisitesCodeValidator.php:152-156 | the running sum Σ digit·weight of the check loops; with weights between 0 and 10, as in every weight table of the validator, it lies between 0 and 90 per position, far from PHP's integer limit |
| `Digits.WeightedSumOfPrefix` | RequisitesCodeValidator.php:152-156 | the weighted sum over n positions depends only on those n characters |
| `Digits.WeightedSumOfExtensions` | RequisitesCodeValidator.php:152-156 | every digit string that starts with the same n characters has the same weighted sum over n positions |
| `Digits.WeightedSumOneChange` | RequisitesCodeValidator.php:381-385 | changing one digit at position k changes the weighted sum by exactly w[k] times the change of that digit |
| `Digits.WeightedSumOfZeros` | RequisitesCodeValidator.php:381-385 | a string of zeros has weighted sum 0 for any weights |
| `Inn.Mod11Control` | RequisitesCodeValidator.php:157-161 | the control digit is the sum's remainder modulo 11, with a remainder of 10 becoming 0; it is always a digit |
| `Inn.Inn10Result` | RequisitesCodeValidator.php:134-170 | non-digit input gives the invalid-characters error before any length test; fewer than 10 characters gives the too-short error; a pass needs at least 10 digits; the only errors are these two and "INN is wrong" |
| `Inn.ValidateInn10` | RequisitesCodeValidator.php:148-169 | the loop over positions 0..9 accumulates the weighted sum with weights 2,4,10,3,5,9,4,6,8,0, and the routine returns exactly the verdict `Inn10Result` |
| `Inn.Inn10ControlDigit` | RequisitesCodeValidator.php:157-161 | the control digit of nine digits is a digit, and it is the value the check computes for every ten digits that start with them |
| `Inn.Inn10Completion` | RequisitesCodeValidator.php:148-169 | nine digits plus a tenth pass iff the tenth is the control digit computed from the nine alone; digit 9 has weight 0, so each prefix has exactly one valid tenth digit, and every other choice gives "INN is wrong" |
| `Inn.Inn10KnownValid` | RequisitesCodeValidator.php:148-169 | `7707083893` passes: its weighted sum is 267, and 267 mod 11 = 3 |
| `Inn.Inn10KnownInvalid` | RequisitesCodeValidator.php:148-169 | `1234567890` is refused: its weighted sum is 279, and 279 mod 11 = 4 ≠ 0 |
| `Inn.Inn12Result` | RequisitesCodeValidator.php:181-238 | invalid characters are reported first; more than 12 characters gives the too-long error; a pass needs exactly 12 digits; a shorter value is reported as a read past the end |
| `Inn.ValidateInn12` | RequisitesCodeValidator.php:196-236 | the first loop sums positions 0..10 with weights shifted by one, the second sums positions 0..11; the routine returns exactly `Inn12Result` |
| `Inn.Inn12FirstControlDigit` | RequisitesCodeValidator.php:206-211 | the first control digit of ten digits is a digit, and it is the value the first sum gives for every twelve digits that start with them |
| `Inn.Inn12SecondControlDigit` | RequisitesCodeValidator.php:221-226 | the second control digit of eleven digits is a digit, and it is the value the second sum gives for every twelve digits that start with them |
| `Inn.Inn12Completion` | RequisitesCodeValidator.php:196-236 | ten digits plus two pass iff digit 10 is the first control digit of the ten and digit 11 is the second control digit of the eleven; otherwise "INN is wrong" |
| `Snils.IsSeparator` | RequisitesCodeValidator.php:59 | the characters removed are hyphen and space; a separator is never a digit |
| `Snils.StripSeparators` | RequisitesCodeValidator.php:59 | the result has no hyphen or space, is no longer than the input, and contains exactly the input's other characters |
| `Snils.StripSeparatorsKeepsOthers` | RequisitesCodeValidator.php:59 | every non-separator character occurs in the result as often as in the input, and separators never occur |
| `Snils.StripSeparatorsIdempotent` | RequisitesCodeValidator.php:59 | stripping twice is the same as stripping once |
| `Snils.SnilsResult` | RequisitesCodeValidator.php:249-287 | invalid characters are reported first, then fewer than 11 and more than 11 characters; a pass needs exactly 11 digits |
| `Snils.ValidateSnils` | RequisitesCodeValidator.php:269-286 | the loop sums positions 0..8 with weights 9..1; the routine returns exactly `SnilsResult` |
| `Snils.SnilsCompletion` | RequisitesCodeValidator.php:269-286 | nine digits plus two pass iff the two, read as an integer, equal the weighted sum of the nine modulo 101 |
| `Snils.SnilsRemainder100NeverPasses` | RequisitesCodeValidator.php:277-279 | when the remainder is 100, no pair of control digits passes, because 100 is not mapped to 00 |
| `Snils.SnilsRemainder100Example` | RequisitesCodeValidator.php:277-285 | `920000011` has weighted sum 100, so `92000001100` is refused |
| `Snils.SnilsKnownValue` | RequisitesCodeValidator.php:269-281 | `11223344595` (the digits of `112-233-445 95`) passes, with weighted sum 95 |
| `Okpo.OkpoControl` | RequisitesCodeValidator.php:315-359 | the required eighth digit is 10, which no digit can match, iff both remainders modulo 11 are 10 |
| `Okpo.OkpoResult` | RequisitesCodeValidator.php:297-360 | invalid characters are reported first, then fewer than 8 and more than 8 characters; a pass needs exactly 8 digits |
| `Okpo.ValidateOkpo` | RequisitesCodeValidator.php:315-359 | two loops sum positions 0..6, one with weights 1..7 and one with weights 3..9; the routine returns exactly `OkpoResult` |
| `Okpo.OkpoCompletion` | RequisitesCodeValidator.php:336-359 | seven digits plus an eighth pass iff the eighth equals the first remainder when that is at most 9, or else the second remainder |
| `Okpo.OkpoBothRemaindersTenNeverPass` | RequisitesCodeValidator.php:336-347 | when both remainders are 10, every eighth digit is refused |
| `Okpo.OkpoBothRemaindersTenExample` | RequisitesCodeValidator.php:336-347 | `0000281` has weighted sums 65 and 87, both 10 modulo 11, so `00002810` is refused |
| `BankAccount.BankAccountResult` | RequisitesCodeValidator.php:370-395 | invalid characters are reported first; a pass needs at least 23 digits; a shorter string is reported as a read past the end |
| `BankAccount.ValidateBankAccount` | RequisitesCodeValidator.php:377-394 | the loop sums positions 0..22 with weights 7,1,3,…; the routine returns exactly `BankAccountResult` |
| `BankAccount.BankWeightsCycle` | RequisitesCodeValidator.php:377 | the 23 weights are the cycle 7, 1, 3 repeated, so each weight is 7, 1 or 3 |
| `BankAccount.AllZeroAccountPasses` | RequisitesCodeValidator.php:381-390 | the all-zero 23-digit string passes |
| `BankAccount.SingleDigitErrorDetected` | RequisitesCodeValidator.php:377-394 | changing any single digit of a passing 23-digit string makes it fail |
| `BankAccount.BankAccountCompletion` | RequisitesCodeValidator.php:381-390 | 22 digits plus a last one pass iff the last digit brings the weighted sum to a multiple of 10 |
| `Ogrn.FloorRemainder11` | RequisitesCodeValidator.php:415-417 | `check - floor(check / 11) * 11` is `check mod 11`, a number 0..10 |
| `Ogrn.OgrnControl` | RequisitesCodeValidator.php:415-436 | the required last digit is the prefix's remainder modulo 11, with 10 becoming 0 |
| `Ogrn.OgrnResult` | RequisitesCodeValidator.php:406-446 | invalid characters are reported first; a digit string of any length other than 13 or 15 gives the length error; a pass needs 13 or 15 digits |
| `Ogrn.OgrnCompletion` | RequisitesCodeValidator.php:413-445 | a 12- or 14-digit prefix plus one digit passes iff that digit is the prefix mod 11, with 10 read as 0; every other digit gives "wrong OGRN" |
| `Ogrn.OgrnRemainderTenExample` | RequisitesCodeValidator.php:433-441 | `0000000000100` passes: the prefix 10 leaves remainder 10, which is read as 0 |
| `RequisitesCodeValidator.CheckString` | RequisitesCodeValidator.php:82-106 | the check string ends with the account, a correspondent one starts with "0", and it has the 3 extra characters the bank check needs iff the BIK has at least 6 (correspondent) or 9 (settlement) characters; built from digits it is all digits |
| `RequisitesCodeValidator.AccountCheck` | RequisitesCodeValidator.php:64-111 | a bank-account failure is a missing BIK, a length error, or the bank check's own error (invalid characters, read past the end, or a wrong sum) carrying the suffix of this account's own kind |
| `RequisitesCodeValidator.ValidateAttribute` | RequisitesCodeValidator.php:30-123 | an allowed empty value passes; an unknown type passes every non-empty value; "value not specified" is the message iff the value is empty, empty values are not allowed, and the type is unknown |
| `RequisitesCodeValidator.DefaultTypeChecksNothing` | RequisitesCodeValidator.php:37-115 | with the default type `inn10` nothing is checked; only a forbidden empty value gets a message |
| `RequisitesCodeValidator.InnLengthElevenRejected` | RequisitesCodeValidator.php:44-57 | an 11-character INN gets the "10 or 12 characters" error, whatever its characters |
| `RequisitesCodeValidator.InnPassesOnlyAtTenOrTwelve` | RequisitesCodeValidator.php:44-57 | a non-empty INN passes iff it has 10 characters and passes INN-10, or 12 characters and passes INN-12; through the dispatcher INN-12 never reads past the end |
| `RequisitesCodeValidator.InvalidCharactersWin` | RequisitesCodeValidator.php:42-114 | for INN (except length 11), OKPO and OGRN, a non-digit character gives the invalid-characters error whatever the length; SNILS and bank accounts are covered by their own lemmas |
| `RequisitesCodeValidator.EmptyValueNotAllowed` | RequisitesCodeValidator.php:33-42 | when empty values are not allowed, every known type replaces "value not specified": INN, SNILS, OKPO and OGRN give invalid characters, and the account types give a missing BIK or too few characters |
| `RequisitesCodeValidator.SnilsInvalidCharactersWin` | RequisitesCodeValidator.php:58-60 | a SNILS with a character that is neither a digit nor a separator gets the invalid-characters error whatever its length |
| `RequisitesCodeValidator.SnilsSeparatorsIgnored` | RequisitesCodeValidator.php:58-60 | a SNILS not made only of hyphens and spaces gets the same verdict as the same value with hyphens and spaces removed |
| `RequisitesCodeValidator.SnilsSeparatorsOnly` | RequisitesCodeValidator.php:33-60 | a non-empty SNILS made only of hyphens and spaces is checked and refused for invalid characters, even when empty values are allowed, because it strips to the empty string |
| `RequisitesCodeValidator.CheckStringLayout` | RequisitesCodeValidator.php:82-106 | given a BIK of at least 6 characters (correspondent) or 9 (settlement), the check string is "0" followed by BIK offsets 4–5, or BIK offsets 6–8, then the account |
| `RequisitesCodeValidator.AccountPreconditionsOrder` | RequisitesCodeValidator.php:64-80 | unless the account is empty and empty values are allowed, a missing BIK is reported before the account length; then fewer than 20 and more than 20 characters give different errors |
| `RequisitesCodeValidator.AccountShortBikReadsPastEnd` | RequisitesCodeValidator.php:82-110 | a digit BIK shorter than 6 characters (correspondent) or 9 (settlement) with a 20-digit account makes the bank check read past the end of its check string, reported with the account-kind suffix |
| `RequisitesCodeValidator.AccountSuffixOnlyOnFailure` | RequisitesCodeValidator.php:82-110 | given a 20-character account and a BIK long enough for the account kind, the account passes iff its check string passes; a failure is the check's own error plus the account-kind suffix, and it is never a read past the end |
| `RequisitesCodeValidator.AccountSingleDigitErrorDetected` | RequisitesCodeValidator.php:64-111 | if an account passes with a BIK long enough for its kind, the same account with one digit mistyped is refused with the account-kind suffix |

## Left out

- Framework glue is not modelled:
  - the `CValidator` base class;
  - message translation (`Yii::t`);
  - `addError`;
  - the `message` property that overrides every message (line 119);
  - reading the value and the BIK from the object by attribute name (lines 32, 65, 89).
  
  Messages are error tags. The value and the BIK value are parameters, and a missing BIK attribute is the empty string.
- `is_numeric` is narrowed to "a non-empty string of ASCII digits". PHP also accepts signs, a decimal point, an exponent, leading whitespace and (from PHP 8) trailing whitespace. Such inputs are modelled as invalid characters.
- `Snils.StripSeparators`: no lemma shows that `112-233-445 95` strips to `11223344595`. Unfolding the function over a 14-character constant needs more solver resource than `dafny verify --resource-limit 2000000` allows. The stripping is stated in general instead: no separators remain, every other character keeps its count, and stripping is idempotent.
- PHP's loose `==` between a digit substring and an integer is modelled as a comparison of integers. This applies to SNILS's two-digit substring too, which is parsed as a number.
- The float division in the OGRN check (lines 416-417 and 423-424) is modelled as exact integer floor division. Prefixes are below 10^14, where the float result is exact.
- Integer width is not modelled. By `WeightedSum`'s contract the weighted sums stay between 0 and 90 per position (below 2100 for 23 positions), and OGRN prefixes stay below 10^14, so no PHP integer overflows.
- `substr` reading past the end of a string depends on the PHP version: the missing digit counts as 0, or a `TypeError` is raised. The model returns the distinct `ReadPastEnd` error instead, in two places:
  - in INN-12 for fewer than 12 digits, which the dispatcher never passes;
  - in the bank-account check for a check string shorter than 23 characters, which the dispatcher builds from a BIK shorter than 6 characters (correspondent account) or 9 characters (settlement account), as `AccountShortBikReadsPastEnd` states.
  
  The dispatcher then appends the account suffix to this error as it does to any other.
- The type name is compared exactly with each `case` label. PHP's loose `switch` comparison only matters for non-string type names, and those are not modelled.
- For an unknown type and a non-empty value, the PHP code reads an undefined `$msg`. This is modelled as "no message".
- OGRNIP's published modulus 13 is not used, because the code uses modulus 11 for both lengths. The SNILS 100-to-00 rule and the OKPO second-remainder-10-to-0 rule are also not applied. All three are modelled as the code has them.
