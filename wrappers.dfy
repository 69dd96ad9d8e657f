/** The optional value and the success-or-error value that Rust's `Option`
    and `Result` stand for. */
module Wrappers {

  datatype Option<+T> = None | Some(value: T)

  datatype Result<+T, +E> = Ok(value: T) | Err(error: E)
}
