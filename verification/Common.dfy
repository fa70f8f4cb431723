/** Result shapes shared by the modules of this project. */
module Common {

  datatype Option<+T> = None | Some(value: T)

  /** A value, or the reason for which the program throws. */
  datatype Result<+T, +E> = Ok(value: T) | Err(error: E)
}
