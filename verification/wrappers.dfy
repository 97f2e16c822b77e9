/** Optional value and handler outcome: `Option` for Python's `Optional[...]`
    values and `Result` for a handler that either answers or raises an HTTP
    error. */
module Wrappers {

  datatype Option<+T> = None | Some(value: T)

  datatype Result<+R, +E> = Success(value: R) | Failure(error: E)
}
