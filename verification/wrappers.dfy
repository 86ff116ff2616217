/** Failure-compatible wrappers used throughout the model: `Option` for a value
    that may be missing (JavaScript `undefined`/`null`) and `Result` for a handler
    outcome that is either a value or an error. */
module Wrappers {

  datatype Option<+T> = None | Some(value: T)

  datatype Result<+T, +E> = Ok(value: T) | Err(error: E)
}
