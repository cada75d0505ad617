/** Option and Result values: Go's nil-able values and (value, error) pairs. */
module Wrappers {

  /** A value that may be absent (a Go nil). */
  datatype Option<+T> = None | Some(value: T)

  /** A value or an error, as returned by a Go function with an `error` result. */
  datatype Result<+T, +E> = Ok(value: T) | Err(error: E)
}
