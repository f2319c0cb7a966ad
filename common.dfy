/** Failure-carrying wrappers shared by the other modules. */
module Common {

  datatype Option<+T> = None | Some(value: T)

  /** A value or an error, for Go's `(value, error)` pairs whose value is unused on error. */
  datatype Result<+T, +E> = Ok(value: T) | Err(error: E)
}
