/** Optional values and success-or-error results, shared by the modules of this project. */
module Wrappers {

  /** A value that may be absent (Java's Optional). */
  datatype Option<+T> = None | Some(value: T)

  /** Either a value or the error that stopped the computation. */
  datatype Result<+T, +E> = Success(value: T) | Failure(error: E)
}
