/** Failure-carrying results shared by every module of the model. */
module Wrappers {

  /** The outcome of an operation that either produces a value or fails with
      an error. Rust `Result<T, E>` returns and Rust panics are both written
      with it; a panic carries an `Errors.Panic` as its error. */
  datatype Result<+T, +E> = Ok(value: T) | Err(error: E)
}
