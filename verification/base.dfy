/** Option and Result, the two failure-carrying shapes the table model uses. */
module Base {

  /** A value that may be absent (a parse that failed, a category with no rows). */
  datatype Option<T> = None | Some(value: T)

  /** The outcome of an operation that pandas would reject with an exception. */
  datatype Result<T, E> = Ok(value: T) | Err(error: E)
}
