/**
 * What a validation returns: either nothing (the value passes) or one error
 * message, modelled as a tag per distinct message of the validator.
 */
module Outcomes {

  /** The two bank-account kinds, each with its own failure suffix. */
  datatype Account = Correspondent | Settlement

  datatype Error =
    | ValueNotSpecified        // "value not specified"
    | BikNotSpecified          // "BIK not specified"
    | InvalidCharacters        // "invalid characters entered"
    | TooFewCharacters         // "too few characters entered"
    | TooManyCharacters        // "too many characters entered"
    | InnLengthNot10Or12       // "INN must be 10 or 12 characters long"
    | InnInvalid               // "INN is wrong"
    | SnilsInvalid             // "SNILS is wrong"
    | OkpoInvalid              // "wrong OKPO entered"
    | AccountInvalid           // the bare "Error. " prefix of the bank-account check
    | OgrnLengthNot13Or15      // "OGRN must have 13 or 15 characters"
    | OgrnInvalid              // "wrong OGRN"
    | ReadPastEnd              // a digit was read past the end of the string
    | WithAccountSuffix(base: Error, account: Account)  // base message + "invalid ... account number."

  datatype Outcome = Pass | Fail(error: Error)
}
