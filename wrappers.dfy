/** Option and Result, used for regex matches that may fail and for the
    `NameError` that `FullName` raises on a text that is not a name. */
module Wrappers {
  datatype Option<T> = None | Some(value: T)

  datatype Result<T, E> = Ok(value: T) | Err(error: E)
}
