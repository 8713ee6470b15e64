/** The Option and Result datatypes shared by the two components. */
module Wrappers {

  /** A value that may be absent: JavaScript's `null`/`undefined` beside a real value. */
  datatype Option<+T> = None | Some(value: T)

  /** The outcome of an expression that may throw. */
  datatype Result<+T, +E> = Success(value: T) | Failure(error: E)
}
