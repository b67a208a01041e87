/** `Option` and `Result`, used across the model. */
module Wrappers {

  datatype Option<+T> = None | Some(value: T)

  /** A Go `(value, error)` pair: either a value or the error returned instead. */
  datatype Result<+R, +E> = Success(value: R) | Failure(error: E)
}
