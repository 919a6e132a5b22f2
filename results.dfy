/** Failure-carrying values shared by the rest of the model. */
module Results {

  datatype Option<+T> = None | Some(value: T)

  /** The outcome of a call that either yields a value or raises an exception with a message. */
  datatype Result<+T, +E> = Success(value: T) | Failure(error: E)
}
