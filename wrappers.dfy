/** Failure-compatible wrappers shared by the whole model. */
module Wrappers {

  /** A value that may be absent: Go's nil pointer, or the `ok == false` half of a comma-ok pair. */
  datatype Option<+T> = None | Some(value: T)

  /** The outcome of a Go call returning `(value, error)`: the error is kept as its text. */
  datatype Result<+R, +E> = Success(value: R) | Failure(error: E)
}
