/** Failure-compatible wrappers shared by the whole model. JavaScript's
    `null`/`undefined` become `None`; a value that may be either a result or
    a thrown error becomes a `Result`. */
module Wrappers {

  datatype Option<+T> = None | Some(value: T) {

    /** The value, or `default` when absent (JavaScript's `x ?? default`). */
    function GetOr(default: T): T {
      match this
      case Some(v) => v
      case None => default
    }
  }

  datatype Result<+R, +E> = Success(value: R) | Failure(error: E)
}
