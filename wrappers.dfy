/** Failure-compatible wrappers used across the model. */
module Wrappers {

  /** A value that may be absent (Go's nil pointer / missing map entry). */
  datatype Option<+T> = None | Some(value: T)

  /** The outcome of an operation that can fail with an error value. */
  datatype Result<+R, +E> = Success(value: R) | Failure(error: E)
}
