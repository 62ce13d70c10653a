/** Failure-carrying values shared by every module of the model. */
module Wrappers {

  /** A value that may be missing: JavaScript's `undefined`/`null` where the
      source treats both alike, or a lookup that found nothing. */
  datatype Option<+T> = None | Some(value: T) {

    function GetOr(default: T): T {
      match this
      case Some(v) => v
      case None => default
    }
  }

  /** The outcome of an operation that can be rejected with an error value. */
  datatype Result<+R, +E> = Ok(value: R) | Err(error: E)
}
