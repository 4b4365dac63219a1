/** Option and Result values used across the model for absent values and for
    the exceptions the game raises (ValueError, RuntimeError, KeyError, ...). */
module Wrappers {

  datatype Option<+T> = None | Some(value: T) {
    function GetOr(default: T): T {
      match this
      case Some(v) => v
      case None => default
    }
  }

  datatype Result<+R, +E> = Success(value: R) | Failure(error: E)
}
