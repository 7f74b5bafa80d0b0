/** Failure-carrying result types shared by every module of the calendar model.
    A PHP exception becomes an `Err`/`Fail` value carrying the error kind. */
module Wrappers {

  datatype Option<+T> = None | Some(value: T)

  datatype Result<+T, +E> = Ok(value: T) | Err(error: E)

  /** The outcome of an operation that returns nothing but may throw. */
  datatype Outcome<+E> = Pass | Fail(error: E)
}
