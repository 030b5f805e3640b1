/** The optional values the source expresses with `None`, and results that may carry a raised error. */
module Wrappers {

  datatype Option<+T> = None | Some(value: T) {

    /** Returns the value held in `Some`, or `default` for `None`. */
    function GetOr(default: T): T {
      match this
      case Some(v) => v
      case None => default
    }
  }

  datatype Result<+T, +E> = Success(value: T) | Failure(error: E)
}
