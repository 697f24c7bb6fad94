/** Optional values and results with an error, used where the screens read a value that may
    be missing or call something that may throw. */
module Outcomes {

  datatype Option<+T> = None | Some(value: T)

  datatype Result<+T, +E> = Ok(value: T) | Err(error: E)
}
