/** Result types standing for the exceptions the digest code throws. */
module Wrappers {

  datatype Option<+T> = None | Some(value: T)

  /** The value of a computation that may throw. */
  datatype Result<+T, +E> = Success(value: T) | Failure(error: E)

  /** The outcome of a `void` method that may throw. */
  datatype Outcome<+E> = Pass | Fail(error: E)
}
