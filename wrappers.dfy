/** Option and Result wrappers shared by every module of the model. */
module Wrappers {

  /** A value that may be absent (a nil pointer in the Go program). */
  datatype Option<+T> = None | Some(value: T)

  /** A value or the error that replaced it (Go's `(T, error)` pair). */
  datatype Result<+T, +E> = Success(value: T) | Failure(error: E)
}
