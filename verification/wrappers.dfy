/** Failure-compatible wrappers: Go's nil pointers and `(value, error)` returns. */
module Wrappers {

  /** A value that may be absent, standing for a possibly-nil pointer. */
  datatype Option<+T> = None | Some(value: T)

  /** The value-or-error pair a Go function returns. */
  datatype Result<+R, +E> = Success(value: R) | Failure(error: E)
}
