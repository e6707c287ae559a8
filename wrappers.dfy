/** Option and Result, the two failure-carrying datatypes used by every module. */
module Wrappers {

  /** A value that may be absent (Python's `None`). */
  datatype Option<+T> = None | Some(value: T)

  /** Either a value, or the error that the Python code would raise instead. */
  datatype Result<+R> = Success(value: R) | Failure(error: string)
}
