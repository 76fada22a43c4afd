/** Failure-compatible wrappers shared by every module of the model. */
module Wrappers {

  /** An optional value: `None` stands for JavaScript's `undefined`. */
  datatype Option<+T> = None | Some(value: T)

  /** The settled state of a promise: fulfilled with a value, or rejected with an error. */
  datatype Result<+T, +E> = Ok(value: T) | Err(error: E)
}
