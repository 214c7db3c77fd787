/** Outcomes of operations that the Python code may abort with an exception. */
module Results {

  /** A value that may be absent; `float()` giving up is `None`. */
  datatype Option<+T> = None | Some(value: T)

  /** `Ok` carries the value the Python function returns; `Err` the exception it raises. */
  datatype Result<+T, +E> = Ok(value: T) | Err(error: E)
}
