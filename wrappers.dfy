/** Failure-carrying values shared by every module of the model. */
module Wrappers {

  /** A value that may be absent: Kotlin's nullable `T?`. */
  datatype Option<+T> = None | Some(value: T) {
    function GetOr(default: T): T {
      match this
      case Some(v) => v
      case None => default
    }
  }

  /**
   * The result of a call that may throw: `Failure` stands for any exception
   * (network error, timeout, malformed response) raised by a collaborator.
   */
  datatype Outcome<+T> = Success(value: T) | Failure
}
