/** Optional values and results with an error, as Go expresses them with nil and `error`. */
module Wrappers {

  /** A value that may be absent (a Go nil reference, interface or slice). */
  datatype Option<+T> = None | Some(value: T)

  /** The outcome of a Go call returning `(T, error)`: a value, or the error's message. */
  datatype Result<+T, +E> = Success(value: T) | Failure(error: E)
}
