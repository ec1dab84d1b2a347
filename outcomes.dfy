/** Failure-compatible wrappers used for the source's exceptions and failed conversions. */
module Outcomes {

  /** A value that may be absent, such as the result of a conversion that can fail. */
  datatype Option<+T> = None | Some(value: T)

  /** The result of an operation that either returns a value or throws. */
  datatype Result<+T, +E> = Success(value: T) | Failure(error: E)

  /** The result of an operation that returns nothing or throws. */
  datatype Outcome<+E> = Pass | Fail(error: E)
}
