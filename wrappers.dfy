/** Outcome types standing in for the exceptions the Java code throws. */
module Wrappers {

  /** A value that may be absent: a Java reference that may be null. */
  datatype Option<+T> = None | Some(value: T)

  /** Either a value or the error a Java method would have thrown instead. */
  datatype Result<+T, +E> = Success(value: T) | Failure(error: E)
}
