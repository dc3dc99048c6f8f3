/** Optional and fallible values. */
module Wrappers {

  /** A value that may be absent: JavaScript's `undefined` where the source tests for it. */
  datatype Option<+T> = None | Some(value: T)

  /** The outcome of a step that can throw: its value, or the error it throws. */
  datatype Result<+T, +E> = Ok(value: T) | Err(error: E)
}
