/** Failure-carrying datatypes shared by the other modules. */
module Wrappers {

  datatype Option<+T> = None | Some(value: T)

  datatype Result<+R, +E> = Success(value: R) | Failure(error: E)

  /** A check that either passes or names why it failed. */
  datatype Outcome<+E> = Pass | Fail(error: E)
}
