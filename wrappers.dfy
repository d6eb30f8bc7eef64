/** Option and Result, used for lookups that may fail and for validation results. */
module Wrappers {
  datatype Option<+T> = None | Some(value: T)

  datatype Result<+R, +E> = Ok(value: R) | Err(error: E)
}
