/** Option and Result values used for the error returns of the Go code. */
module Wrappers {

  datatype Option<+T> = None | Some(value: T)

  /** The shape of Go's `(value, error)` pairs: exactly one side is present. */
  datatype Result<+T, +E> = Ok(value: T) | Err(error: E)
}
