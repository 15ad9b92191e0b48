/** Failure-carrying results shared by the model: the Python code raises
    exceptions where these return their failure variant. */
module Wrappers {

  datatype Option<+T> = None | Some(value: T)

  datatype Result<+R, +E> = Ok(value: R) | Err(error: E)

  /** Success without a value, or a failure carrying its diagnostic. */
  datatype Outcome<+E> = Pass | Fail(error: E)
}
