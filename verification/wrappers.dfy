/** Optional values and fallible results, as used throughout the model. */
module Wrappers {

  /** A value that may be absent: JavaScript's `null`/`undefined` become `None`. */
  datatype Option<+T> = None | Some(value: T) {

    /** The value if present, otherwise `default`. */
    function GetOr(default: T): T {
      match this
      case Some(v) => v
      case None => default
    }
  }

  /** The outcome of an evaluation that may throw. */
  datatype Result<+R, +E> = Success(value: R) | Failure(error: E)
}
