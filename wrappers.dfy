/** Optional values and results with an error, for the source's missing keys and raised exceptions. */
module Wrappers {

  /** A value that may be absent (a missing key, or `None`). */
  datatype Option<+T> = None | Some(value: T) {

    /** The value, or `default` when absent: the source's `d.get(key, default)`. */
    function GetOr(default: T): (r: T)
      ensures Some? ==> r == value
      ensures None? ==> r == default
    {
      match this
      case Some(v) => v
      case None => default
    }
  }

  /** The outcome of an operation that raises on some inputs. */
  datatype Result<+R, +E> = Success(value: R) | Failure(error: E)
}
