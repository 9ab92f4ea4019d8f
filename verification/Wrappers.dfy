/** Values that may be absent, and results that may carry an error. */
module Wrappers {

  datatype Option<+T> = None | Some(value: T)

  datatype Result<+T, +E> = Ok(value: T) | Err(error: E)

  function GetOr<T>(value: Option<T>, default: T): T {
    if value.Some? then value.value else default
  }
}
