/** Success/failure results for operations whose source reports an error instead of a value. */
module Wrappers {
  datatype Result<+T, +E> = Success(value: T) | Failure(error: E)
}
