/** Failure-compatible result types used across the model. */
module Wrappers {

  /** A value that may be absent: JavaScript's `null`/`undefined`. */
  datatype Option<+T> = None | Some(value: T) {
    function GetOr(default: T): T {
      if Some? then value else default
    }
  }

  /** The outcome of a call that may throw: `Failure` carries the thrown `Error`'s message. */
  datatype Result<+T> = Success(value: T) | Failure(error: string)
}
