/** Failure-compatible wrappers shared by the model: an optional value (a
    TypeScript `undefined`/`null`, or an absent key) and the outcome of a
    call into a service the model does not see. */
module Wrappers {

  datatype Option<+T> = None | Some(value: T) {

    /** The value, or `default` when there is none (TypeScript `??`). */
    function GetOr(default: T): T {
      match this
      case Some(v) => v
      case None => default
    }
  }

  /** The settled state of a promise: resolved with a value or rejected. */
  datatype Result<+R, +E> = Success(value: R) | Failure(error: E)
}
