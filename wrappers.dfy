/** Failure-carrying results for the errors the adapter raises. */
module Wrappers {

  datatype Option<+T> = None | Some(value: T)

  datatype Result<+R, +E> = Success(value: R) | Failure(error: E)

  /** An operation that either completes or raises, with nothing to return. */
  datatype Outcome<+E> = Pass | Fail(error: E)
}
