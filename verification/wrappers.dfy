/** The two wrappers the quiz model uses: an optional value (JavaScript's
    `null` or a value) and the outcome of a call that may throw. */
module Wrappers {

  /** A value that may be absent; `None` plays the part of JavaScript's `null`. */
  datatype Option<+T> = None | Some(value: T)

  /** Either a value or the error that a JavaScript `throw` would have raised. */
  datatype Result<+T, +E> = Success(value: T) | Failure(error: E)
}
