/** The result datatypes the other modules share. */
module Options {

  datatype Option<+T> = None | Some(value: T)

  /** A Python exception is a Failure; what the exception says is its error value. */
  datatype Result<+T, +E> = Success(value: T) | Failure(error: E)
}
