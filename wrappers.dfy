/** Optional values and error returns, standing for Java's null and thrown exceptions. */
module Wrappers {

  /** A value that may be absent, where the Java code uses null. */
  datatype Option<+T> = None | Some(value: T)

  /** The value of an operation that may throw: its result or the error it raises. */
  datatype Result<+T, +E> = Success(value: T) | Failure(error: E)

  /** The end of an operation that returns nothing but may throw. */
  datatype Outcome<+E> = Pass | Fail(error: E)
}
