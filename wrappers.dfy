/** Failure-carrying result types used wherever the source raises an exception. */
module Wrappers {

  datatype Option<+T> = None | Some(value: T)

  /** The value of a call that can raise: `Failure` carries the error message. */
  datatype Result<+R, +E> = Success(value: R) | Failure(error: E)

  /** The outcome of a call that returns nothing but can raise. */
  datatype Outcome<+E> = Pass | Fail(error: E)
}
