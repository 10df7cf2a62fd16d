/** Option and Result values shared by the release and router models. */
module Wrappers {

  /** A value that may be absent: Go's nil pointer or SQL's NULL. */
  datatype Option<+T> = None | Some(value: T)

  /** The outcome of an operation that returns a Go `error` on failure. */
  datatype Result<+T, +E> = Ok(value: T) | Err(error: E)
}
