/** Failure-compatible wrappers shared by the modules of this model. */
module Outcomes {

  /** Python's `Optional[T]`. */
  datatype Option<+T> = None | Some(value: T)

  /** A computed value, or the message of the exception that was raised instead. */
  datatype Result<+T> = Success(value: T) | Failure(message: string)

  /** How one call of an action's `execute` ended: it returned, or it raised an
      `Exception` whose `str()` is `message`. */
  datatype Outcome = Ok | Fail(message: string)
}
