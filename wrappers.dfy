/** Failure-carrying results, used for the exceptions the moderation code can raise. */
module Wrappers {

  /** Either a value or the error that replaced it. */
  datatype Result<+T, +E> = Ok(value: T) | Err(error: E)
}
