/** Option and Result, the two failure-carrying value types the rest of the model uses. */
module Wrappers {

  /** A value that may be absent (JavaScript's `undefined`/`null`, or a lookup that found nothing). */
  datatype Option<+T> = None | Some(value: T) {
    function GetOr(default: T): T {
      match this
      case Some(v) => v
      case None => default
    }
  }

  /** The two ways a promise settles: fulfilled with a value, or rejected with an error message. */
  datatype Result<+R> = Ok(value: R) | Err(error: string)
}
