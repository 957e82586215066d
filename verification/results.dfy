/** Option and Result values for the error paths of the tracing tool. */
module Results {

  datatype Option<+T> = None | Some(value: T)

  /** Either a value or the reason the operation aborted. */
  datatype Result<+T, +E> = Ok(value: T) | Err(error: E)
}
