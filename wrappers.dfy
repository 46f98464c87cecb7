/** Optional values and results, used for Python's `None` and for raised exceptions. */
module Wrappers {

  /** `None` stands for Python's `None` (or a missing value), `Some(v)` for a value. */
  datatype Option<+T> = None | Some(value: T) {

    /** The value, or `default` when there is none. */
    function GetOr(default: T): T {
      match this
      case Some(v) => v
      case None => default
    }
  }

  /** `Ok(v)` for a normal return, `Err(e)` for a raised exception. */
  datatype Result<+T, +E> = Ok(value: T) | Err(error: E)
}
