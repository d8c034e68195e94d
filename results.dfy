/** Option, Result and Outcome: the shapes of the Go functions' (value, error) returns. */
module Results {

  datatype Option<+T> = None | Some(value: T)

  /** A value or an error: a Go `(T, error)` return. */
  datatype Result<+T, +E> = Success(value: T) | Failure(error: E)

  /** No value, only an error or nothing: a Go `error` return. */
  datatype Outcome<+E> = Pass | Fail(error: E)
}
