/** Option and Result: Java's nullable references and thrown exceptions. */
module Wrappers {

  /** A Java reference that may be null. */
  datatype Option<+T> = None | Some(value: T)

  /** The outcome of a call that returns normally or throws. */
  datatype Result<+T, +E> = Success(value: T) | Failure(error: E)
}
