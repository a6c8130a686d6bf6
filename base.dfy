/** Option and Result wrappers shared by every page model. */
module Base {

  /** A value that may be absent: the model of a nullable column or an optional argument. */
  datatype Option<+T> = None | Some(value: T)

  /** The outcome of an operation that can fail with an error message. */
  datatype Result<+T> = Ok(value: T) | Err(error: string)
}
