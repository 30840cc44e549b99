/** Failure-carrying results shared by every module of the model. */
module Common {

  /** A value that may be absent (Python's `None`). */
  datatype Option<T> = None | Some(value: T)

  /** The outcome of an operation that either returns a value or raises. */
  datatype Result<T, E> = Ok(value: T) | Err(error: E)
}
