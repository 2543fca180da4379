/** Option and Result, used for pandas' NaN (undefined) cells and for the
    exceptions the Python code raises. */
module Wrappers {

  /** A cell that may be undefined (pandas NaN). */
  datatype Option<+T> = None | Some(value: T)

  /** A computation that either returns a value or raises an error. */
  datatype Result<+T, +E> = Success(value: T) | Failure(error: E)
}
