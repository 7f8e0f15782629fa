/** Optional values and results with an error, used for the NULL pointers and
    the failing calls of the extension. */
module Wrappers {

  /** A value that may be absent: the model of a nullable C pointer. */
  datatype Option<+T> = None | Some(value: T)

  /** The outcome of a call that can fail with an error of type E. */
  datatype Result<+T, +E> = Success(value: T) | Failure(error: E)
}
