/** Failure-carrying result types shared by the other modules. */
module Wrappers {

  /** A value that may be absent, as a failed conversion returns. */
  datatype Option<+T> = None | Some(value: T)

  /** The outcome of an operation that either succeeds or raises an error. */
  datatype Result<+R, +E> = Success(value: R) | Failure(error: E)
}
