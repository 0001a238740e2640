/** Failure-carrying datatypes shared by every module of the model. */
module Wrappers {

  /** A value that may be absent: a JavaScript `null`/`undefined`, a regex
      match that failed, or `NaN` where a number was expected. */
  datatype Option<+T> = None | Some(value: T) {

    /** The wrapped value, or `default` when absent (JavaScript's `m ? m[1] : d`). */
    function GetOr(default: T): T {
      match this
      case Some(v) => v
      case None => default
    }
  }

  /** Either the value a handler produced or the error it answered with. */
  datatype Result<+R, +E> = Success(value: R) | Failure(error: E)
}
