/** Failure-carrying result types shared by the storage and cluster models. */
module Wrappers {

  datatype Option<+T> = None | Some(value: T)

  /** An operation that either resolves with a value or rejects with an error. */
  datatype Result<+T, +E> = Success(value: T) | Failure(error: E)

  /** An operation that either resolves (with nothing of interest) or rejects. */
  datatype Outcome<+E> = Pass | Fail(error: E)
}
