/** Failure-carrying values used across the model: `Option` for Python's
    `None`-or-value fields and `Result` for operations that can raise. */
module Wrappers {

  datatype Option<+T> = None | Some(value: T)

  datatype Result<+R, +E> = Success(value: R) | Failure(error: E)
}
