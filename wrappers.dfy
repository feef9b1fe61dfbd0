/** Option, Result and Outcome: the model's encoding of Go values that may be nil and
    `(value, error)` returns. */
module Wrappers {

  /** A Go `*T` that may be nil. */
  datatype Option<+T> = None | Some(value: T)

  /** A Go `(value, error)` pair where exactly one side is meaningful. */
  datatype Result<+R, +E> = Ok(value: R) | Err(error: E)

  /** A Go `error` result on its own: nil, or an error value. */
  datatype Outcome<+E> = Pass | Fail(error: E)
}
