/** Failure-carrying result types shared by the pipeline's modules. */
module Wrappers {

  /** A value that may be absent, as a missing environment variable. */
  datatype Option<+T> = None | Some(value: T)

  /** The value of an operation that can raise an exception. */
  datatype Result<+T, +E> = Success(value: T) | Failure(error: E)

  /** The outcome of a check that either passes or raises. */
  datatype Outcome<+E> = Pass | Fail(error: E)
}
