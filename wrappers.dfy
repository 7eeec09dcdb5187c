/** Option and Result values used wherever the Swift code returns an optional or throws. */
module Wrappers {

  datatype Option<+T> = None | Some(value: T) {
    /** The wrapped value, or `default` when there is none (Swift's `??`). */
    function GetOr(default: T): T {
      match this
      case Some(v) => v
      case None => default
    }
  }

  /** The outcome of a throwing Swift call: its value, or the error it threw. */
  datatype Result<+R, +E> = Success(value: R) | Failure(error: E)

  /** The outcome of a throwing Swift call that returns nothing. */
  datatype Outcome<+E> = Pass | Fail(error: E)
}
