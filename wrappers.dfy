/** Option and Result, the two failure-carrying values the model uses. */
module Wrappers {

  /** `None` stands for JavaScript's NaN, null or "no value", depending on where it is used. */
  datatype Option<+T> = None | Some(value: T)

  /** A computation that either produced a value or threw an error carrying a message. */
  datatype Result<+R, +E> = Success(value: R) | Failure(error: E)
}
