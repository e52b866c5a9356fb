/** Option and Result, standing in for Java's nullable references and thrown exceptions. */
module Wrappers {

  /** A value that may be absent (a Java `null`). */
  datatype Option<+T> = None | Some(value: T)

  /** A value, or the exception that was thrown instead of returning it. */
  datatype Result<+T, +E> = Ok(value: T) | Err(error: E)
}
