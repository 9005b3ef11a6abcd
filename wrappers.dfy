/** Failure-carrying values used for the backend's errors and unset attributes. */
module Wrappers {

  /** A Python attribute that is either `None` or holds a value. */
  datatype Option<+T> = None | Some(value: T)

  /** The value a call returns, or the exception it raises. */
  datatype Result<+T, +E> = Success(value: T) | Failure(error: E)

  /** A call that either completes or raises, without a value of its own. */
  datatype Outcome<+E> = Pass | Fail(error: E)
}
