/** Option and Result, the failure-carrying values the rest of the model returns. */
module Wrappers {

  /** A value that may be missing: JavaScript's `undefined` or `null`. */
  datatype Option<+T> = None | Some(value: T) {
    function GetOr(default: T): T {
      match this
      case Some(v) => v
      case None => default
    }
  }

  /** The outcome of an operation that may throw: its value or the error it throws. */
  datatype Result<+T, +E> = Success(value: T) | Failure(error: E)
}
