/** Optional values and error-carrying results, used where the Go code returns
    a nil result, a nil slice with an error, or an `error`. */
module Wrappers {

  datatype Option<+T> = None | Some(value: T)

  datatype Result<+T, +E> = Ok(value: T) | Err(error: E)
}
