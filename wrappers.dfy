/** Option and Result, the two failure-carrying values the model uses in place of
    Python's None and of raised exceptions. */
module Wrappers {

  datatype Option<+T> = None | Some(value: T) {
    function GetOr(default: T): T {
      match this
      case Some(v) => v
      case None => default
    }
  }

  /** `Failure` carries the message the Python code would raise or report. */
  datatype Result<+R, +E> = Success(value: R) | Failure(error: E)
}
