/** Failure-carrying values that stand for the exceptions the C# code throws. */
module Wrappers {

  /** A value, or the error that prevented it. */
  datatype Result<+T, +E> = Success(value: T) | Failure(error: E)

  /** A check that either passes or fails with an error. */
  datatype Outcome<+E> = Pass | Fail(error: E)
}
