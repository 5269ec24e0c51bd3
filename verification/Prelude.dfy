/** Shared result types. */
module Prelude {
  datatype Option<+T> = None | Some(value: T)

  datatype Result<+T, +E> = Ok(value: T) | Err(error: E)

  /** The result of a statement that returns nothing. */
  datatype Outcome<+E> = Pass | Fail(error: E)
}
