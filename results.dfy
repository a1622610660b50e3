/** Option and Result: the model's stand-ins for Python's None and for raised exceptions. */
module Results {

  datatype Option<+T> = None | Some(value: T)

  /** Success carries the value; Failure carries the message the source raises. */
  datatype Result<+T> = Success(value: T) | Failure(message: string)
}
