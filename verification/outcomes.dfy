/** Optional values and results carrying an error, shared by the controller models. */
module Outcomes {

  /** An argument that may be omitted, or passed as `undefined`/`null` by a JavaScript caller. */
  datatype Option<+T> = None | Some(value: T) {

    /** The carried value, or `default` when there is none: the `??` operator. */
    function GetOr(default: T): T {
      match this
      case Some(v) => v
      case None => default
    }
  }

  /** The outcome of an operation that either succeeds with a value or fails with an error. */
  datatype Result<+T, +E> = Success(value: T) | Failure(error: E)
}
