/** Failure-compatible wrappers shared by every module of the model. */
module Wrappers {

  /** A value that may be absent: JavaScript's `null` / `undefined`. */
  datatype Option<+T> = None | Some(value: T)

  /** An operation that either yields a value or throws an error carrying a message. */
  datatype Result<+T, +E> = Ok(value: T) | Err(error: E)
}
