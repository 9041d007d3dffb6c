/** Failure-carrying results shared by every part of the model. */
module Wrappers {

  /** A Go value that may be `nil`: `nil` is None. */
  datatype Option<+T> = None | Some(value: T)

  /** A Go `(value, error)` pair: a non-nil error is Failure. */
  datatype Result<+T, +E> = Success(value: T) | Failure(error: E)
}
