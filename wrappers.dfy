/** Optional values and results with an error message, used for the source's `None` and its exceptions. */
module Wrappers {

  datatype Option<T> = None | Some(value: T)

  datatype Result<T> = Ok(value: T) | Err(error: string)
}
