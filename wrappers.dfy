/** Failure-compatible wrappers shared by the other modules. */
module Wrappers {

  /** A value that may be absent. */
  datatype Option<+T> = None | Some(value: T)

  /** Either a value or the error that the computation raised instead. */
  datatype Result<+T, +E> = Success(value: T) | Failure(error: E)
}
