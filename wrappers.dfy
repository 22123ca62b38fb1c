/** Optional values and error-or-value results, used wherever the Go code
    returns a nil pointer, a NULL column or an `error`. */
module Wrappers {

  /** A value that may be absent: a nil pointer, or a NULL column. */
  datatype Option<+T> = None | Some(value: T) {
    function GetOr(default: T): T {
      match this
      case Some(v) => v
      case None => default
    }
  }

  /** The `(value, error)` pair of a Go function: `Err` carries the text that
      `err.Error()` would return. */
  datatype Result<+T> = Ok(value: T) | Err(message: string)
}
