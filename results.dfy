/** Option and Result values for fields that may be absent and for operations that may fail. */
module Results {

  /** A value that may be absent: a field of a partially filled form, or a parse that failed. */
  datatype Option<+T> = None | Some(value: T)

  /** The outcome of an operation that either produces a value or fails with an error. */
  datatype Result<+T, +E> = Ok(value: T) | Err(error: E)
}
