/** Success/failure values standing in for the exceptions and `ABORT_IF`s of the configuration code. */
module Wrappers {

  datatype Option<+T> = None | Some(value: T)

  datatype Result<+T, +E> = Ok(value: T) | Err(error: E)
}
