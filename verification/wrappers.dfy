/** Failure-compatible result types shared by every module of the model. */
module Wrappers {

  /** A value that may be absent (Python's `None`). */
  datatype Option<+T> = None | Some(value: T)

  /** Either a computed value or the error the source would raise. */
  datatype Result<+T, +E> = Success(value: T) | Failure(error: E)

  /** Pass, or the error message the route handler would flash. */
  datatype Outcome<+E> = Pass | Fail(error: E)
}
