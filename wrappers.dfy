/** Failure-carrying result types shared by the codec and the registry. */
module Wrappers {

  datatype Option<+T> = None | Some(value: T)

  datatype Result<+T, +E> = Ok(value: T) | Err(error: E)

  /** The outcome of an operation that yields no value: Rust's `Result<(), E>`. */
  datatype Outcome<+E> = Pass | Fail(error: E)
}
