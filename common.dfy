/** Failure-carrying wrappers shared by every module of the model. */
module Common {

  /** Python's Optional: a value or None. */
  datatype Option<+T> = None | Some(value: T)

  /** The outcome of an operation that either returns a value or raises. */
  datatype Result<+T, +E> = Success(value: T) | Failure(error: E)
}
