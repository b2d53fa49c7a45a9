/** Optional values and results with an error, used wherever the Python code
    returns None or raises an exception that the caller does not catch. */
module Wrappers {

  datatype Option<+T> = None | Some(value: T)

  datatype Result<+T, +E> = Success(value: T) | Failure(error: E)
}
