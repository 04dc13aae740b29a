/** Failure-carrying wrappers shared by every module of the model:
    `Option` for Python's `None`-or-value and `Result` for a value or a
    raised exception. */
module Wrappers {

  datatype Option<+T> = None | Some(value: T) {
    function GetOr(default: T): T {
      match this
      case Some(v) => v
      case None => default
    }
  }

  datatype Result<+T, +E> = Success(value: T) | Failure(error: E)
}
