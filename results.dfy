/** Option and outcome types shared by the model. */
module Results {

  datatype Option<+T> = None | Some(value: T)

  /** What a host call gives back: a value, or the error message the host attached to its rejection. */
  datatype Outcome<+T> = Ok(value: T) | Err(message: string)
}
