/** Option and Result, standing in for Java's nullable references and thrown exceptions. */
module Wrappers {

  /** A value that may be absent (Java `null`). */
  datatype Option<+T> = None | Some(value: T) {
    function GetOr(default: T): T {
      match this
      case Some(v) => v
      case None => default
    }
  }

  /** Either the value an operation returns or the exception it throws. */
  datatype Result<+R, +E> = Success(value: R) | Failure(error: E)
}
