/** Small failure-compatible wrappers shared by every module of the model. */
module Base {

  /** A value that may be missing: a pandas NaN cell, a device with no code. */
  datatype Option<+T> = None | Some(value: T)

  /** The outcome of a step that may raise: the value, or the error it raised. */
  datatype Result<+T, +E> = Ok(value: T) | Err(error: E)
}
