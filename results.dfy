/** Optional values and success/failure results, shared by the other modules. */
module Results {

  /** A value that may be absent; for a spreadsheet cell, None is an empty (NaN) cell. */
  datatype Option<+T> = None | Some(value: T)

  /** The outcome of an operation that can fail with an error of type E. */
  datatype Result<+R, +E> = Success(value: R) | Failure(error: E)
}
