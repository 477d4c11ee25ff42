/** Optional values and results with an error, for the nulls and exceptions of the analyzed C# code. */
module Wrappers {
  datatype Option<+T> = None | Some(value: T)

  datatype Result<+R, +E> = Success(value: R) | Failure(error: E)
}
