/** Option and Result, the two failure-carrying wrappers the model uses. */
module Wrappers {

  /** A value that may be absent: JavaScript's `undefined`/`null` or a lookup that found nothing. */
  datatype Option<+T> = None | Some(value: T) {

    /** The value, or `default` when there is none (JavaScript's `??`). */
    function GetOr(default: T): T {
      match this
      case Some(v) => v
      case None => default
    }
  }

  /** The outcome of a request: a value on success, an error otherwise. */
  datatype Result<+T, +E> = Success(value: T) | Failure(error: E)
}
