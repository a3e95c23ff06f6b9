/** Failure-carrying datatypes used by the connector model. */
module Wrappers {

  /** A value that may be absent (TypeScript's `T | undefined`). */
  datatype Option<+T> = None | Some(value: T)

  /** A call that either resolves with a value or rejects with an error. */
  datatype Result<+R, +E> = Success(value: R) | Failure(error: E)

  /** A call that resolves with nothing (`Promise<void>`) or rejects with an error. */
  datatype Outcome<+E> = Pass | Fail(error: E)
}
