/** Option and Result, standing in for absent JSON keys and for the
    exceptions the Python code raises. */
module Wrappers {

  /** An optional value: `None` models an absent key or Python's `None`. */
  datatype Option<+T> = None | Some(value: T) {

    /** The wrapped value, or a default when absent (Python's `dict.get`). */
    function GetOr(default: T): T {
      match this
      case Some(v) => v
      case None => default
    }
  }

  /** The outcome of an operation that may raise. */
  datatype Result<+R, +E> = Success(value: R) | Failure(error: E)
}
