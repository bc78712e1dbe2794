/** Option and Result, the two failure-carrying values the rest of the model returns.
    `None` stands for Python's `None`; `Failure` carries the exception a call raises. */
module Wrappers {

  datatype Option<+T> = None | Some(value: T) {

    /** The value, or `default` when there is none. */
    function GetOr(default: T): T {
      match this
      case Some(v) => v
      case None => default
    }
  }

  datatype Result<+R, +E> = Success(value: R) | Failure(error: E)
}
