/** Optional values and results with an error, as the rest of the model uses them. */
module Wrappers {

  /** A value that may be missing: Python's `None` or a present value. */
  datatype Option<+T> = None | Some(value: T)

  /** The outcome of an operation that may raise: a value, or the exception it raised. */
  datatype Result<+R, +E> = Success(value: R) | Failure(error: E)
}
