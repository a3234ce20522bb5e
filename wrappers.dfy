/** Option and Result, the stand-ins for Python's `None` and for raised exceptions. */
module Wrappers {

  datatype Option<+T> = None | Some(value: T) {
    function GetOr(default: T): T {
      match this
      case Some(v) => v
      case None => default
    }
  }

  /** `Failure` stands for an exception the source raises; `error` names its kind. */
  datatype Result<+T, +E> = Success(value: T) | Failure(error: E)
}
