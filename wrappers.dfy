/** Option and Result, for the places where the source returns None or raises. */
module Wrappers {

  datatype Option<+T> = None | Some(value: T) {
    function GetOr(default: T): T {
      match this
      case Some(v) => v
      case None => default
    }
  }

  /** The outcome of an operation that may raise: `Err` carries a short description of the exception. */
  datatype Result<+T> = Ok(value: T) | Err(error: string)
}
