/** Option and Result, the two failure-carrying wrappers the model uses. */
module Wrappers {

  /** A value that may be absent (Python's `None`). */
  datatype Option<+T> = None | Some(value: T)

  /** A success value or an error value (a raised exception). */
  datatype Result<+R, +E> = Success(value: R) | Failure(error: E)
}
