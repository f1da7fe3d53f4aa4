/** The two ways a stress-test run can abort with a Python exception. */
module Results {

  /** `ChoiceFromEmpty` is the IndexError that `random.choice` raises on an empty
      domain list; `ZeroDivision` is the ZeroDivisionError of the error-rate
      formula when no request was scheduled. */
  datatype RunError = ChoiceFromEmpty | ZeroDivision

  datatype Result<+T> = Ok(value: T) | Err(error: RunError)
}
