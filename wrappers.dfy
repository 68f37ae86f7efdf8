/** Optional values: a JSON field that may be absent, a database column that may be null. */
module Wrappers {

  datatype Option<+T> = None | Some(value: T) {

    /** Returns the value, or `default` when there is none. */
    function GetOr(default: T): T {
      match this
      case Some(v) => v
      case None => default
    }
  }

  /** The outcome of an operation that either succeeds or reports an error. */
  datatype Result<+R, +E> = Ok(value: R) | Err(error: E)
}
