/** Option and Result: a value that may be absent, and an operation that may be rejected. */
module Wrappers {

  /** A value that may be absent (the page's `Emotion | null`). */
  datatype Option<+T> = None | Some(value: T)

  /** The outcome of an operation the page may refuse with a user-facing error. */
  datatype Result<+R, +E> = Success(value: R) | Failure(error: E)
}
