/** Option, Result and Outcome values used for nil results and the
    `error` returns of the modelled code. */
module Wrappers {

  datatype Option<+T> = None | Some(value: T)

  datatype Result<+R, +E> = Ok(value: R) | Err(error: E)

  /** The outcome of a call that returns only an error. */
  datatype Outcome<+E> = Pass | Fail(error: E)
}
