/** Optional values and results for the error paths of the modelled code. */
module Wrappers {
  datatype Option<T> = None | Some(value: T)

  datatype Result<T> = Ok(value: T) | Failure(error: string)
}
