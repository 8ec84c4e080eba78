/** Optional values: a missing dictionary key, a failed fetch, a `None` result. */
module Wrappers {

  datatype Option<+T> = None | Some(value: T) {

    /** The value, or `default` when there is none (Python's `d.get(k, default)`). */
    function GetOr(default: T): T {
      match this
      case Some(v) => v
      case None => default
    }
  }

  /** A computation that may fail with a message: a raised exception. */
  datatype Result<+T> = Success(value: T) | Failure(error: string)
}
