/** Optional values and results with an error, used for Java's null and thrown exceptions. */
module Wrappers {

  /** A value that may be absent: Java's nullable reference or empty Optional. */
  datatype Option<+T> = None | Some(value: T)

  /** Either a normal result or the error raised instead of it. */
  datatype Result<+T, +E> = Success(value: T) | Failure(error: E)
}
