/** Failure-compatible wrappers used for Java's null results and thrown exceptions. */
module Wrappers {

  /** A value that may be absent (Java's null). */
  datatype Option<+T> = None | Some(value: T)

  /** A computation that either yields a value or fails with an error (a thrown exception). */
  datatype Result<+T, +E> = Ok(value: T) | Err(error: E)

  /** A computation with no value that either passes or fails with an error. */
  datatype Outcome<+E> = Pass | Fail(error: E)
}
