/** Optional values and results, as used throughout the model. */
module Wrappers {

  /** A value that may be absent: `undefined`/`null` in the source. */
  datatype Option<+T> = None | Some(value: T)

  /** A computation that either succeeds or fails with an error. */
  datatype Result<+R, +E> = Success(value: R) | Failure(error: E)
}
