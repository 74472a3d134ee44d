/** Option and Result, the two failure-carrying datatypes the handlers return. */
module Wrappers {

  datatype Option<+T> = None | Some(value: T) {
    function GetOr(default: T): T {
      match this
      case Some(v) => v
      case None => default
    }
  }

  /** A handler's answer: `Ok` with the response body, or `Err` with the error code. */
  datatype Result<+T, +E> = Ok(value: T) | Err(error: E)
}
