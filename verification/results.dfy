/** Failure-carrying return values shared by the other modules. */
module Results {

  /** A value that may be absent. */
  datatype Option<T> = None | Some(value: T)

  /** Either a value or the error that prevented computing it. */
  datatype Result<T, E> = Ok(value: T) | Err(error: E)
}
