/** Outcomes of the steps a backup run calls out to. The Python script signals
    failure by raising; the model returns the error text instead. */
module Results {

  /** A value, or the text of the exception that prevented it. */
  datatype Result<T> = Ok(value: T) | Err(error: string)

  /** A step that produces nothing: it either completes or raises. */
  datatype Status = Done | Raised(error: string)

  datatype Option<T> = None | Some(value: T)
}
