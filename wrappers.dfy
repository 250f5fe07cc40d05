/** Option and Result values used where the Java code returns null or throws. */
module Wrappers {

  /** A value that may be absent (the Java code's `null`). */
  datatype Option<T> = None | Some(value: T)

  /** Either a value or the error a Java method would have thrown. */
  datatype Result<T, E> = Success(value: T) | Failure(error: E)
}
