/** Failure-carrying return values shared by every module of the model. */
module Wrappers {

  datatype Option<+T> = None | Some(value: T)

  datatype Result<+T, +E> = Success(value: T) | Failure(error: E)

  /** An operation that either completes or fails with an error (the model of a raise or exit(1)). */
  datatype Outcome<+E> = Pass | Fail(error: E)
}
