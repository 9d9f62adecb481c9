/** Failure-carrying datatypes shared by every module of the model. */
module Results {

  /** A value that may be absent: Python's `None` or a nullable column. */
  datatype Option<+T> = None | Some(value: T)

  /** The outcome of an operation that can raise: either its value or the exception it raised. */
  datatype Result<+R, +E> = Success(value: R) | Failure(error: E)
}
