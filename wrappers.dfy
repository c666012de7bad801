/** Optional values and results with an error, the shapes of Go's `(value, error)` returns. */
module Wrappers {

  /** `None` stands for Go's `nil` error, `Some(e)` for a returned error `e`. */
  datatype Option<+T> = None | Some(value: T)

  datatype Result<+T, +E> = Success(value: T) | Failure(error: E)
}
