/** Option and Result values used for PHP's null and for the exceptions the mailer throws. */
module Wrappers {

  /** A value that PHP may hold as null. */
  datatype Option<+T> = None | Some(value: T)

  /** The outcome of an operation that may throw. */
  datatype Result<+R, +E> = Success(value: R) | Failure(error: E)
}
