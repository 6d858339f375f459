/** Option and Result, the two failure-carrying shapes used throughout the model. */
module Wrappers {

  datatype Option<T> = None | Some(value: T)

  /** Rust's `Result<T, E>`: `Ok` carries the value, `Err` the error. */
  datatype Result<T, E> = Ok(value: T) | Err(error: E)
}
