/** Option and Result, used wherever the scripts raise or fall back. */
module Wrappers {

  datatype Option<+T> = None | Some(value: T)

  /** Ok carries the value an operation returns; Err stands for the exception it raises. */
  datatype Result<+T, +E> = Ok(value: T) | Err(error: E)
}
