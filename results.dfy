/** Failure-carrying values standing in for the source's fatal exits and nil/err pairs. */
module Results {

  /** A value that may be absent (a nil slice or a nil pointer in the source). */
  datatype Option<+T> = None | Some(value: T)

  /** The outcome of a step that either produces a value or ends the process with an error. */
  datatype Result<+T, +E> = Ok(value: T) | Err(error: E)
}
