// A value that may be missing, and a value or an error number.

module Wrappers {
  datatype Option<T> = None | Some(value: T)
  datatype Result<T> = Ok(value: T) | Err(errno: int)
}
