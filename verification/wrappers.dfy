/** Failure-compatible wrappers used throughout the model. */
module Wrappers {

  /** A value that may be missing (Python's `None`). */
  datatype Option<+T> = None | Some(value: T)

  /** The outcome of an operation: a value, or an error the caller sees. */
  datatype Result<+R, +E> = Success(value: R) | Failure(error: E)
}
