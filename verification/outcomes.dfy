/** Failures the simulation core can raise. The Python game has no error
    handling of its own: these are the exceptions its arithmetic and its one
    construction assertion would raise, made explicit as values. */
module Outcomes {

  /** ZeroDivision: a zero-length vector was normalised.
      AssertionFailed: a planet was built with a field no larger than its body. */
  datatype Fault = ZeroDivision | AssertionFailed

  /** The result of an operation that may raise one of the faults above. */
  datatype Outcome<+T> = Ok(value: T) | Err(fault: Fault)
}
