/** Optional values and results with an error, shared by every module of the model. */
module Wrappers {

  /** Swift's `Optional`: `nil` is `None`. */
  datatype Option<+T> = None | Some(value: T)

  /** A value or the error a Swift `throws` function raises instead. */
  datatype Result<+T, +E> = Success(value: T) | Failure(error: E)
}
