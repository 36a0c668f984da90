/** Optional values and outcomes that may carry an error instead of a value. */
module Wrappers {

  /** A value that may be absent: a SQL NULL, a pandas NaN or a Python None. */
  datatype Option<+T> = None | Some(value: T)

  /** The outcome of an operation that may raise instead of returning. */
  datatype Result<+T, +E> = Success(value: T) | Failure(error: E)
}
