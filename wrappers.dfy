/** Option and Result, the two failure-carrying datatypes used throughout the model. */
module Wrappers {

  datatype Option<+T> = None | Some(value: T)

  /** A computation that either produced a value or raised (an uncaught Python exception). */
  datatype Result<+T, +E> = Success(value: T) | Failure(error: E)
}
