/** Failure-carrying result types shared by the modules of the model. */
module Wrappers {

  /** A value that may be absent: an optional field, or a `null`/`undefined` in the source. */
  datatype Option<+T> = None | Some(value: T)

  /** The outcome of an operation that either returns a value or throws. */
  datatype Result<+R, +E> = Success(value: R) | Failure(error: E)

  /** The outcome of an operation that returns nothing or throws. */
  datatype Outcome<+E> = Pass | Fail(error: E)
}
