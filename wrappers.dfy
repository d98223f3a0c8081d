/** Optional values and results of calls that may throw. */
module Wrappers {

  datatype Option<+T> = None | Some(value: T)

  /** The outcome of a call that either returns a value or throws with a message. */
  datatype Result<+T> = Ok(value: T) | Err(error: string)
}
