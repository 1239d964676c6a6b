/**
 * The field checks of registration and loan application. Both variants run the same
 * cascades; the first check that fails decides the outcome.
 */
module Validation {
  import opened Records

  predicate ValidEmail(email: string)
  {
    4 <= |email| && '@' in email
  }

  predicate ValidPassword(password: string)
  {
    8 <= |password|
  }

  predicate ValidName(name: string)
  {
    2 <= |name|
  }

  /** The registration checks in their order: email, then password, then name. */
  function RegistrationError(email: string, password: string, name: string): (r: Option<Error>)
    ensures r.None? <==> ValidEmail(email) && ValidPassword(password) && ValidName(name)
    ensures r == Some(InvalidEmail) <==> !ValidEmail(email)
    ensures r == Some(InvalidPassword) <==> ValidEmail(email) && !ValidPassword(password)
    ensures r == Some(InvalidName) <==> ValidEmail(email) && ValidPassword(password) && !ValidName(name)
  {
    if |email| < 4 || '@' !in email then Some(InvalidEmail)
    else if |password| < 8 then Some(InvalidPassword)
    else if |name| < 2 then Some(InvalidName)
    else None
  }

  /**
   * The amount guard as the source writes it: reject when `amount < 50000 or
   * amount > 1000000`. Both comparisons are false for NaN, so NaN gets through.
   */
  predicate AmountRejectedAsWritten(amount: Float)
  {
    Less(amount, 50000.0) || Greater(amount, 1000000.0)
  }

  /** The intended amount range: a finite number in [50000, 1000000]. */
  predicate ValidAmount(amount: Float)
  {
    amount.Finite? && 50000.0 <= amount.value <= 1000000.0
  }

  predicate ValidTenure(tenure: int)
  {
    1 <= tenure <= 5
  }

  predicate ValidPurpose(purpose: string)
  {
    1 <= |purpose| <= 200
  }

  /** The application checks exactly as written, the amount guard included. */
  function ApplicationErrorAsWritten(amount: Float, tenure: int, purpose: string): (r: Option<Error>)
    ensures r == Some(BadAmount) <==> AmountRejectedAsWritten(amount)
    ensures r == Some(BadTenure) <==> !AmountRejectedAsWritten(amount) && !ValidTenure(tenure)
    ensures r == Some(BadPurpose) <==> !AmountRejectedAsWritten(amount) && ValidTenure(tenure) && !ValidPurpose(purpose)
    ensures r.None? <==> !AmountRejectedAsWritten(amount) && ValidTenure(tenure) && ValidPurpose(purpose)
  {
    if AmountRejectedAsWritten(amount) then Some(BadAmount)
    else if tenure < 1 || tenure > 5 then Some(BadTenure)
    else if |purpose| == 0 || |purpose| > 200 then Some(BadPurpose)
    else None
  }

  /** The application checks in their order: amount, then tenure, then purpose; NaN is refused. */
  function ApplicationError(amount: Float, tenure: int, purpose: string): (r: Option<Error>)
    ensures r.None? <==> ValidAmount(amount) && ValidTenure(tenure) && ValidPurpose(purpose)
    ensures r == Some(BadAmount) <==> !ValidAmount(amount)
    ensures r == Some(BadTenure) <==> ValidAmount(amount) && !ValidTenure(tenure)
    ensures r == Some(BadPurpose) <==> ValidAmount(amount) && ValidTenure(tenure) && !ValidPurpose(purpose)
  {
    if amount.NaN? || AmountRejectedAsWritten(amount) then Some(BadAmount)
    else if tenure < 1 || tenure > 5 then Some(BadTenure)
    else if |purpose| == 0 || |purpose| > 200 then Some(BadPurpose)
    else None
  }

  /** A NaN amount with otherwise valid fields passes the checks as written, and is refused by the corrected ones. */
  lemma NaNAmountAccepted()
    ensures ApplicationErrorAsWritten(NaN, 1, "car") == None
    ensures ApplicationError(NaN, 1, "car") == Some(BadAmount)
  {
  }

  /** On every amount but NaN the corrected checks decide exactly as the written ones. */
  lemma ApplicationErrorAgreesOffNaN(amount: Float, tenure: int, purpose: string)
    requires !amount.NaN?
    ensures ApplicationError(amount, tenure, purpose) == ApplicationErrorAsWritten(amount, tenure, purpose)
  {
  }

  /** Every bound is inclusive: 50000 and 1000000, 1 and 5 years, 1 and 200 characters pass; one beyond fails. */
  lemma ApplicationBoundsInclusive(purpose200: string, purpose201: string)
    requires |purpose200| == 200 && |purpose201| == 201
    ensures ValidAmount(Finite(50000.0)) && ValidAmount(Finite(1000000.0))
    ensures !ValidAmount(Finite(49999.0)) && !ValidAmount(Finite(1000001.0))
    ensures !ValidAmount(PosInf) && !ValidAmount(NegInf)
    ensures ValidTenure(1) && ValidTenure(5) && !ValidTenure(0) && !ValidTenure(6)
    ensures ValidPurpose(purpose200) && !ValidPurpose(purpose201) && !ValidPurpose("")
  {
  }

  /** The registration bounds: a 4-character email with '@', an 8-character password and a 2-character name pass. */
  lemma RegistrationBoundsInclusive()
    ensures RegistrationError("a@bc", "12345678", "Al") == None
    ensures RegistrationError("a@b", "12345678", "Al") == Some(InvalidEmail)
    ensures RegistrationError("abcd", "12345678", "Al") == Some(InvalidEmail)
    ensures RegistrationError("a@bc", "1234567", "") == Some(InvalidPassword)
    ensures RegistrationError("a@bc", "12345678", "A") == Some(InvalidName)
  {
  }
}
