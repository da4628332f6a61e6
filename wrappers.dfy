/** Failure-compatible values used for the source's exceptions and its `None`. */
module Wrappers {

  /** A value that may be absent, as Python's `None`. */
  datatype Option<+T> = None | Some(value: T)

  /** A check that either passes or fails with an error, as a guard that raises. */
  datatype Outcome<+E> = Pass | Fail(error: E)

  /** A computation that either produces a value or stops with an error. */
  datatype Result<+T, +E> = Success(value: T) | Failure(error: E)
}
