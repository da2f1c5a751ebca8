/** Failure-carrying wrappers shared by the whole model. */
module Wrappers {

  /** A value that may be absent: a JavaScript property that is `undefined`. */
  datatype Option<+T> = None | Some(value: T) {
    function GetOr(default: T): T {
      match this
      case Some(v) => v
      case None => default
    }
  }

  /** The outcome of an operation that may throw: `Err` carries the error's message. */
  datatype Result<+T> = Ok(value: T) | Err(message: string)
}
