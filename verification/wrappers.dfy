/** Option, Result and Outcome: the value-level replacement for the binder's
    thrown exceptions. */
module Wrappers {

  datatype Option<+T> = None | Some(value: T)

  /** A computation that either produced a value or failed with an error. */
  datatype Result<+R, +E> = Ok(value: R) | Err(error: E)

  /** A check that either passed or failed with an error; it carries no value. */
  datatype Outcome<+E> = Pass | Fail(error: E)
}
