/** Null-or-value and success-or-error wrappers shared by every module. */
module Wrappers {

  /** `None` stands for Java's `null` wherever the source accepts or returns a nullable reference. */
  datatype Option<+T> = None | Some(value: T)

  /** A computation that either returns a value or raises the exception described by the error value. */
  datatype Result<+T, +E> = Ok(value: T) | Err(error: E)
}
