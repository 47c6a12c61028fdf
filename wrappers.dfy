/** Rust's `Option` and `Result`, as the launcher receives them from the standard library. */
module Wrappers {

  datatype Option<+T> = None | Some(value: T)

  datatype Result<+T, +E> = Ok(value: T) | Err(error: E)
}
