/** Small failure-carrying datatypes shared by every module of the model. */
module Wrappers {

  /** A value that may be absent: `undefined` in JavaScript, or NaN from `parseInt`. */
  datatype Option<+T> = None | Some(value: T)

  /** A successful value or an error description. */
  datatype Result<+T, +E> = Ok(value: T) | Err(error: E)
}
