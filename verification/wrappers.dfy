/** Optional values and results with an error, used wherever the app either
    yields nothing, throws, or returns a failure. */
module Wrappers {

  datatype Option<+T> = None | Some(value: T)

  datatype Result<+R, +E> = Success(value: R) | Failure(error: E)
}
