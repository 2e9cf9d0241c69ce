/** Failure-carrying values shared by the city store and the weather path. */
module Results {

  /** An optional value: the result of a search that may find nothing. */
  datatype Option<+T> = None | Some(value: T)

  /** A value or the error that replaced it (an exception or an HTTP error). */
  datatype Result<+T, +E> = Ok(value: T) | Err(error: E)
}
