/** Wrappers used throughout the model: a thrown error of the source becomes
    the `Err`/`Fail` alternative of these datatypes. */
module Results {

  datatype Option<+T> = None | Some(value: T)

  datatype Result<+T, +E> = Ok(value: T) | Err(error: E)

  /** The outcome of a guard that either returns normally or throws. */
  datatype Outcome<+E> = Pass | Fail(error: E)
}
