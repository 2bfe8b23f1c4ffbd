/** Optional values and success/failure results, used wherever the Python code
    returns `None`, raises, or answers with an HTTP error instead of a value. */
module Wrappers {

  datatype Option<+T> = None | Some(value: T) {

    /** The wrapped value, or `default` when there is none (Python's `x or default`). */
    function GetOr(default: T): T {
      match this
      case Some(v) => v
      case None => default
    }
  }

  /** Either a computed value or an error value. */
  datatype Result<+T, +E> = Success(value: T) | Failure(error: E)
}
