/** Optional values and fallible results shared by every module. */
module Wrappers {

  /** A value that may be missing: JavaScript's `undefined`/`null`, or an absent document. */
  datatype Option<+T> = None | Some(value: T) {

    /** The carried value, or `default` when there is none. */
    function GetOr(default: T): T {
      match this
      case Some(v) => v
      case None => default
    }
  }

  /** The outcome of a call that can throw or report an error through its callback. */
  datatype Result<+T> = Success(value: T) | Failure
}
