/** Failure-compatible wrappers shared by the model. */
module Wrappers {

  /** A value that may be absent (a nullable column, a query that finds nothing). */
  datatype Option<+T> = None | Some(value: T)

  /** The outcome of a computation that can raise: a value, or the error it raised. */
  datatype Result<+T, +E> = Success(value: T) | Failure(error: E)
}
