/** Option and Result, the shapes in which the model returns Python's `None`
    and raised exceptions. */
module Wrappers {

  datatype Option<+T> = None | Some(value: T) {
    function GetOr(default: T): T {
      match this
      case Some(v) => v
      case None => default
    }
  }

  /** `Failure(msg)` stands for a raised exception carrying `msg`. */
  datatype Result<+R, +E> = Success(value: R) | Failure(error: E)
}
