/** Option and Result: the values the modelled code returns where Python
    returns None or raises an exception. */
module Wrappers {

  datatype Option<+T> = None | Some(value: T)

  /** `Err` carries the exception the Python code raises. */
  datatype Result<+T, +E> = Ok(value: T) | Err(error: E)

  /** A check that either passes or raises `E`. */
  datatype Outcome<+E> = Pass | Fail(error: E)
}
