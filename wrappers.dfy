/** Failure-carrying result types used throughout the model, standing for
    Rust's `Option<T>`, `Result<T, E>` and `Result<(), E>`. */
module Wrappers {

  datatype Option<+T> = None | Some(value: T)

  datatype Result<+T, +E> = Ok(value: T) | Err(error: E)

  /** The outcome of an operation that returns nothing on success. */
  datatype Outcome<+E> = Pass | Fail(error: E)
}
