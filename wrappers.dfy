/** Option and Result values: Java's nullable references and thrown exceptions. */
module Wrappers {

  /** A reference that may be null. */
  datatype Option<+T> = None | Some(value: T)

  /** Either a normal return value or the exception raised instead. */
  datatype Result<+R, +E> = Success(value: R) | Failure(error: E)
}
