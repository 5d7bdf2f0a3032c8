/** Optional values and results with an error message, shared by every module. */
module Wrappers {
  datatype Option<T> = None | Some(value: T)

  /** A computation that either produced a value or threw an Error with the given message. */
  datatype Result<T> = Ok(value: T) | Err(msg: string)
}
