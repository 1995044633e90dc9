/** Result types shared by the model. */
module Results {
  datatype Option<+T> = None | Some(value: T)

  /** A call that returns a value or an error. */
  datatype Result<+T, +E> = Ok(value: T) | Err(error: E)
}
