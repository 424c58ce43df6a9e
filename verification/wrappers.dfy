/** Option and Result, the failure-carrying wrappers used across the model. */
module Wrappers {

  /** A value that may be absent: Go's nil pointer or "not found". */
  datatype Option<+T> = None | Some(value: T)

  /** Success with a value, or failure with an error (Go's `(T, error)` pair). */
  datatype Result<+T, +E> = Success(value: T) | Failure(error: E)
}
