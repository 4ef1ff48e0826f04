/** Optional values and results, standing in for Java's null and for a thrown exception. */
module Wrappers {

  /** A value that may be missing (Java `null`). */
  datatype Option<+T> = None | Some(value: T)

  /** The outcome of a command: a value, or the message of the exception it raised. */
  datatype Result<+R, +E> = Success(value: R) | Failure(error: E)
}
