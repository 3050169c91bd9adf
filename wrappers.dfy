/** Option and Result, the failure-carrying datatypes used throughout the model. */
module Wrappers {

  datatype Option<+T> = None | Some(value: T) {
    function GetOr(default: T): T {
      match this
      case Some(v) => v
      case None => default
    }
  }

  /** An operation that either succeeds with a value or raises an error. */
  datatype Result<+R, +E> = Ok(value: R) | Err(error: E)

  /** A Python exception: its class name and the text `str(e)` gives. */
  datatype Error = Error(kind: string, message: string)

  /** What looking up a missing key in a dictionary raises. */
  function KeyError(key: string): Error {
    Error("KeyError", "'" + key + "'")
  }
}
