/** Optional values and results, used for Go's nil-able returns and
    (value, error) pairs. */
module Wrappers {

  datatype Option<T> = None | Some(value: T)

  datatype Result<T, E> = Ok(value: T) | Err(error: E)
}
