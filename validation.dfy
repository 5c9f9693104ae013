/** Birth-year validation.  The wall clock is not modelled: the current year
    is a parameter. */
module ZodiacValidation {

  /** The earliest accepted birth year. */
  const MIN_YEAR := 1920

  /** What the caller passed: nothing (or another falsy value such as an empty
      string), something that is not a number, or an integer. */
  datatype YearInput = Missing | NotANumber | Entered(value: int)

  datatype ValidationError = InvalidYear | BeforeMinimum | InFuture

  datatype Validation = Valid | Invalid(error: ValidationError)

  /** The message reported with each error; there is always one. */
  function ErrorMessage(e: ValidationError): (m: string)
    ensures |m| > 0
  {
    match e
    case InvalidYear => "Please enter a valid year"
    case BeforeMinimum => "Year must be 1920 or later"
    case InFuture => "Year cannot be in the future"
  }

  /** The three errors report three different messages, so the message tells
      which check failed. */
  lemma ErrorMessagesDistinct(e1: ValidationError, e2: ValidationError)
    ensures ErrorMessage(e1) == ErrorMessage(e2) <==> e1 == e2
  {
  }

  /** validateBirthYear: the checks run in order (falsy or not a number, too
      early, in the future), and the first that fails decides.  The year 0 is
      falsy and so reported as not a valid year. */
  function ValidateBirthYear(input: YearInput, currentYear: int): (v: Validation)
    ensures v == Valid <==> input.Entered? && MIN_YEAR <= input.value <= currentYear
    ensures v == Invalid(InvalidYear) <==> !input.Entered? || input.value == 0
    ensures v == Invalid(BeforeMinimum) <==> input.Entered? && input.value != 0 && input.value < MIN_YEAR
    ensures v == Invalid(InFuture) <==> input.Entered? && MIN_YEAR <= input.value && currentYear < input.value
  {
    if !input.Entered? || input.value == 0 then Invalid(InvalidYear)
    else if input.value < MIN_YEAR then Invalid(BeforeMinimum)
    else if input.value > currentYear then Invalid(InFuture)
    else Valid
  }

  /** A year accepted in one year stays accepted in every later year, and a
      year rejected only as being in the future is accepted once the clock
      reaches it. */
  lemma ValidationAsTimePasses(input: YearInput, now: int, later: int)
    requires now <= later
    ensures ValidateBirthYear(input, now) == Valid ==> ValidateBirthYear(input, later) == Valid
    ensures ValidateBirthYear(input, now) == Invalid(InFuture) && input.Entered? ==>
              ValidateBirthYear(input, input.value) == Valid
  {
  }
}
