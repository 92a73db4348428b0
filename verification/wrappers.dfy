/** Optional values, results with an error, and pass/fail outcomes. */
module Wrappers {

  /** A value that may be absent (a C# null or `Nullable<T>`). */
  datatype Option<+T> = None | Some(value: T)

  /** The value of an operation that either returns or throws. */
  datatype Result<+R, +E> = Success(value: R) | Failure(error: E)

  /** The outcome of an operation that returns nothing but may throw. */
  datatype Outcome<+E> = Pass | Fail(error: E)
}
