/** Option and Result, the two wrappers every other module uses. */
module Wrappers {

  datatype Option<+T> = None | Some(value: T) {
    function GetOr(default: T): T {
      match this
      case Some(v) => v
      case None => default
    }
  }

  /** A computation that either produces a value or fails with an error (a thrown exception in JavaScript). */
  datatype Result<+T, +E> = Ok(value: T) | Err(error: E)
}
