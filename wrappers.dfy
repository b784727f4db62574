/** Optional values and results with an error, shared by the modules of the model. */
module Wrappers {

  /** A value that may be absent (a nil pointer in the Go code). */
  datatype Option<+T> = None | Some(value: T)

  /** A value or an error (a Go `(value, error)` pair where exactly one is meaningful). */
  datatype Result<+T, +E> = Success(value: T) | Failure(error: E)
}
