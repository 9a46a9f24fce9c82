/** Optional values and results with an error channel, used by every module. */
module Outcomes {

  /** A value that may be absent (Python's `None`). */
  datatype Option<+T> = None | Some(value: T)

  /** The outcome of an operation that raises on failure. */
  datatype Result<+T, +E> = Success(value: T) | Failure(error: E)
}
