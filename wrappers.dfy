/** Option and Result, used where the source returns `undefined`/`null` or throws. */
module Wrappers {

  datatype Option<T> = None | Some(value: T)

  /** `Err` carries the message of the `Error` the source throws. */
  datatype Result<T, E> = Ok(value: T) | Err(error: E)
}
