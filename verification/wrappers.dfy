/** Option and Result values for the operations that can fail or find nothing. */
module Wrappers {

  datatype Option<+T> = None | Some(value: T)

  /** A C++ call either returns its value or throws; `Failure` carries the exception. */
  datatype Result<+R, +E> = Success(value: R) | Failure(error: E)
}
