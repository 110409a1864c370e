/** Result types shared by the components. */
module Common {

  datatype Option<+T> = None | Some(value: T)

  /** A returned value, or the message of a thrown error. */
  datatype Result<+T> = Ok(value: T) | Err(error: string)
}
