/** Optional values and results with an error, for the gateway's "no reply" and the
    configuration error that the pipeline raises. */
module Wrappers {

  datatype Option<+T> = None | Some(value: T)

  datatype Result<+R, +E> = Success(value: R) | Failure(error: E)
}
