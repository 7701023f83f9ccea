/** The two result types the other modules share. */
module Wrappers {

  /** Python's `None` or a value. */
  datatype Option<+T> = None | Some(value: T)

  /** A value, or the exception the code raises instead. */
  datatype Result<+T, +E> = Success(value: T) | Failure(error: E)
}
