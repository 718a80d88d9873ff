/** Optional values and outcomes that may be an error, shared by every module of the model. */
module Wrappers {

  /** A value that may be absent (`undefined`/`null` on the JavaScript side). */
  datatype Option<+T> = None | Some(value: T)

  /** The outcome of an expression that may throw. */
  datatype Result<+T, +E> = Success(value: T) | Failure(error: E)
}
