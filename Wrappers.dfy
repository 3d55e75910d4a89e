/** Failure-compatible wrappers: a nullable value and a value-or-exception outcome. */
module Wrappers {

  /** A value that may be absent (the source's nullable references). */
  datatype Option<+T> = None | Some(value: T)

  /** A computed value or the exception the source would throw instead. */
  datatype Result<+R, +E> = Success(value: R) | Failure(error: E)
}
