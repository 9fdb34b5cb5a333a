/** Optional values and success/failure results shared by the other modules. */
module Wrappers {

  /** A value that may be absent: JavaScript's null/undefined, Python's None. */
  datatype Option<+T> = None | Some(value: T)

  /** The outcome of an operation that can fail with an error value. */
  datatype Result<+R, +E> = Success(value: R) | Failure(error: E)
}
