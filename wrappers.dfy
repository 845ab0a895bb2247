/** Option and Result values, standing for PHP's nullable values and for
    thrown exceptions or error responses. */
module Wrappers {

  /** A PHP value that may be `null`. */
  datatype Option<+T> = None | Some(value: T) {
    /** The value, or `default` when null (PHP's `??`). */
    function GetOr(default: T): T {
      match this
      case Some(v) => v
      case None => default
    }
  }

  /** The outcome of an operation that may raise an error. */
  datatype Result<+T, +E> = Ok(value: T) | Err(error: E)
}
