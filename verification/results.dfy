/** Failure-carrying wrappers standing in for Go's `(value, error)` returns. */
module Results {

  /** An optional value; `None` plays the role of a nil error. */
  datatype Option<+T> = None | Some(value: T)

  /** Either a value or the error that prevented computing it. */
  datatype Result<+T, +E> = Success(value: T) | Failure(error: E)
}
