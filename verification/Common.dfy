/** Small shared datatypes. */
module Common {

  /** A value that may be absent: SQL NULL, Python None. */
  datatype Option<+T> = None | Some(value: T)

  /** An operation either yields a value or raises one of the service's errors. */
  datatype Result<+T, +E> = Ok(value: T) | Err(error: E)
}
