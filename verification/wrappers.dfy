/** Optional values and results with an error, used where the source returns null or throws. */
module Wrappers {

  /** A value that may be absent (the source's `null`). */
  datatype Option<+T> = None | Some(value: T)

  /** A value, or the error the source would have thrown instead. */
  datatype Result<+T, +E> = Success(value: T) | Failure(error: E)
}
