/** Optional values and results of calls that may fail. */
module Wrappers {

  /** A value that may be absent (JavaScript's `null` / `undefined`). */
  datatype Option<+T> = None | Some(value: T)

  /** The outcome of a call that may fail (a rejected promise, a thrown exception). */
  datatype Result<+T, +E> = Success(value: T) | Failure(error: E)
}
