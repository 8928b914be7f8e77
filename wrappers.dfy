/** Failure-carrying values shared by the user directory model. */
module Wrappers {

  /** An optional value: the directory's `Option<String>` answers. */
  datatype Option<+T> = None | Some(value: T)

  /** A value or an error: the directory's `Result<(), String>` answers. */
  datatype Result<+T, +E> = Ok(value: T) | Err(error: E)
}
