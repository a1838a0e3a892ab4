/** Option and Result, used for Java's null and for thrown exceptions. */
module Wrappers {

  /** `None` stands for a Java `null` reference. */
  datatype Option<+T> = None | Some(value: T)

  /** A computation that either succeeds or raises the error `error`. */
  datatype Result<+R, +E> = Success(value: R) | Failure(error: E)
}
