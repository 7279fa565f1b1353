/** The Option and Result wrappers used for Python's `None` and for raised exceptions. */
module Options {

  /** A value that may be absent (Python's `Optional[T]`). */
  datatype Option<+T> = None | Some(value: T)

  /** The outcome of an operation that either returns a value or raises an error. */
  datatype Result<+T, +E> = Success(value: T) | Failure(error: E)
}
