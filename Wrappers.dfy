/** Option and Result: the error paths of the intake server are values, not exceptions. */
module Wrappers {

  datatype Option<+T> = None | Some(value: T)

  /** A step that either produces a value or fails with the message the server reports. */
  datatype Result<+T> = Ok(value: T) | Err(message: string)

  /** A step that produces nothing on success. */
  datatype Outcome = Done | Fail(message: string)
}
