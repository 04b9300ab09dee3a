/** Optional values and results, for lookups that may find nothing and steps that may fail. */
module Wrappers {

  datatype Option<+T> = None | Some(value: T) {
    function GetOr(default: T): T {
      match this
      case Some(v) => v
      case None => default
    }
  }

  /** A step that either produces a value or stops with a Python exception (named by `error`). */
  datatype Result<+T> = Ok(value: T) | Err(error: string)
}
