/** Optional values, results with an error, and pass/fail outcomes. */
module Wrappers {

  /** A value that may be absent: Java's nullable reference. */
  datatype Option<+T> = None | Some(value: T)

  /** The value of a computation that either succeeds or throws. */
  datatype Result<+R, +E> = Success(value: R) | Failure(error: E)

  /** The outcome of a void operation that either returns or throws. */
  datatype Outcome<+E> = Pass | Fail(error: E)
}
