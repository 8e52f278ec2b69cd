/** Failure-carrying return values used in place of PHP's `null` returns and exceptions. */
module Wrappers {

  /** A value that may be absent; `None` plays the part of PHP's `null` or `false`. */
  datatype Option<+T> = None | Some(value: T)

  /** Either a computed value or the error that a PHP method would have thrown. */
  datatype Result<+R, +E> = Success(value: R) | Failure(error: E)
}
