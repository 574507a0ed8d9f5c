/** Small failure-carrying datatypes shared by the modules of this model. */
module Common {

  /** A value that may be missing (JavaScript's `null`). */
  datatype Option<T> = None | Some(value: T)

  /** A call that either returns a value or throws an `Error` with a message. */
  datatype Result<T> = Ok(value: T) | Err(message: string)
}
