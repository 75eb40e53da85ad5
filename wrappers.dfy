/** Failure-carrying values shared by the model: an optional value, a value-or-error
    result for operations that throw, and a pass/fail status for those that return nothing. */
module Wrappers {

  datatype Option<+T> = None | Some(value: T) {
    function GetOr(default: T): T {
      match this
      case Some(v) => v
      case None => default
    }
  }

  /** A call that either returns a value or throws an `Error` carrying `message`. */
  datatype Result<+T> = Success(value: T) | Failure(message: string)

  /** A call that returns nothing, or throws an `Error` carrying `message`. */
  datatype Status = Done | Failed(message: string)
}
