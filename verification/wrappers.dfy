/** Optional values and results used across the model: an optional value
    (JavaScript's `undefined`/`null` versus a present value) and a result
    that is either a value or an error message (a thrown `Error`). */
module Wrappers {

  datatype Option<+T> = None | Some(value: T) {

    /** The value, or `default` when absent. */
    function GetOr(default: T): T {
      match this
      case Some(v) => v
      case None => default
    }
  }

  datatype Result<+R, +E> = Success(value: R) | Failure(error: E)
}
