/** Failure-carrying values used where the JavaScript code throws or returns undefined. */
module Wrappers {

  datatype Option<+T> = None | Some(value: T)

  /** A computation that either produced a value or threw an Error carrying a message. */
  datatype Result<+T, +E> = Success(value: T) | Failure(error: E)
}
