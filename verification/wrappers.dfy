/** Option and result types shared by the pump modules. */
module Wrappers {

  /** A value that may be absent; stands in for a nil pointer. */
  datatype Option<+T> = None | Some(value: T)

  /** Either a value or an error; stands in for a Go panic or error return. */
  datatype Result<+R, +E> = Success(value: R) | Failure(error: E)
}
