/** Optional values and results with an error value, used for nullable
    columns and for operations of the application that can fail. */
module Wrappers {

  datatype Option<+T> = None | Some(value: T)

  datatype Result<+T, +E> = Ok(value: T) | Err(error: E)
}
