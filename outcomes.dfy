/** The option and result types used for the toolchain's returned errors. */
module Outcomes {

  datatype Option<+T> = None | Some(value: T)

  /** The value-returning outcome of an operation that can fail with an error of type E. */
  datatype Result<+T, +E> = Success(value: T) | Failure(error: E)

  /** The outcome of an operation that returns nothing on success (Rust's `Result<(), E>`). */
  datatype Outcome<+E> = Pass | Fail(error: E)
}
