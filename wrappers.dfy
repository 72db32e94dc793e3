/** Failure-compatible wrappers for values a PHP method may return or throw. */
module Wrappers {

  /** A value that may be absent, as `false` from `strtotime()`. */
  datatype Option<+T> = None | Some(value: T)

  /** A returned value or the exception thrown instead. */
  datatype Result<+T, +E> = Success(value: T) | Failure(error: E)

  /** A call that returns nothing, or the exception thrown instead. */
  datatype Outcome<+E> = Pass | Fail(error: E)
}
