/** Optional values and results with an error, as used by every other module. */
module Wrappers {

  datatype Option<+T> = None | Some(value: T) {
    /** The value, or `default` when there is none (Python's `dict.get(k, default)`). */
    function GetOr(default: T): T {
      match this
      case Some(v) => v
      case None => default
    }
  }

  /** The outcome of an operation that may raise in the source. */
  datatype Result<+R, +E> = Success(value: R) | Failure(error: E)
}
