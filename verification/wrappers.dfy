/** Option, Result and Outcome: the error paths of the routes are returned as values. */
module Wrappers {

  datatype Option<+T> = None | Some(value: T) {
    function GetOr(default: T): T {
      match this
      case Some(v) => v
      case None => default
    }
  }

  datatype Result<+R, +E> = Success(value: R) | Failure(error: E)

  /** An operation that either passes (and has changed the state) or fails with `error`. */
  datatype Outcome<+E> = Pass | Fail(error: E)
}
