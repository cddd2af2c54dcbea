/** Failure-compatible wrappers shared by the marshalling modules. */
module Wrappers {

  /** An optional value: `None` stands for Python's `None`. */
  datatype Option<+T> = None | Some(value: T) {

    /** The wrapped value, or `default` when there is none. */
    function GetOr(default: T): T {
      match this
      case Some(v) => v
      case None => default
    }
  }

  /** Either a value or the error an operation raises instead. */
  datatype Result<+R, +E> = Success(value: R) | Failure(error: E)
}
