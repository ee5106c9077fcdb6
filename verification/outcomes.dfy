/** Failure-carrying wrappers shared by the storage layer and the request handlers. */
module Outcomes {

  /** A value that may be absent: JavaScript's `undefined` / SQL's NULL. */
  datatype Option<+T> = None | Some(value: T)

  /** The outcome of an operation that may throw. */
  datatype Result<+T, +E> = Success(value: T) | Failure(error: E)
}
