/** Optional values, and results of operations that may fail. */
module Wrappers {
  import opened Errors

  datatype Option<T> = None | Some(value: T)

  datatype Result<T> = Ok(value: T) | Err(error: Error)
}
