/** Failure-carrying values used in place of the exceptions the library throws. */
module Wrappers {

  /** A value that may be absent (PHP `null`). */
  datatype Option<+T> = None | Some(value: T)

  /** A value, or the error that was thrown instead of returning it. */
  datatype Result<+T, +E> = Ok(value: T) | Err(error: E)

  /** The outcome of a `void` operation: it returned normally, or it threw. */
  datatype Outcome<+E> = Pass | Fail(error: E)
}
