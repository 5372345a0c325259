/** Optional values (JavaScript `null`) and results of operations that may throw. */
module Wrappers {

  /** `None` stands for `null` (or, for an argument, for a value of another class). */
  datatype Option<+T> = None | Some(value: T)

  /** `Err` carries the message of the `Error` the source throws. */
  datatype Result<+T> = Ok(value: T) | Err(message: string)
}
