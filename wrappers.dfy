/** Failure-compatible result types shared by the modules of this project. */
module Wrappers {

  /** A value that may be absent. */
  datatype Option<+T> = None | Some(value: T)

  /** A computation that yields a value or an error. */
  datatype Result<+R, +E> = Success(value: R) | Failure(error: E)

  /** A computation that yields nothing but may fail with an error. */
  datatype Outcome<+E> = Pass | Fail(error: E)
}
