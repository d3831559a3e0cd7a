/** Failure-carrying result types shared by the parsing and rendering modules. */
module Wrappers {

  datatype Option<T> = None | Some(value: T)

  /** A computation that either returns a value or raises an error. */
  datatype Result<T, E> = Ok(value: T) | Err(error: E)
}
