/** The two failure-carrying datatypes used across the model. */
module Options {

  /** A value that may be absent. */
  datatype Option<+T> = None | Some(value: T)

  /** A returned value or a thrown error. */
  datatype Result<+T, +E> = Ok(value: T) | Err(error: E)
}
