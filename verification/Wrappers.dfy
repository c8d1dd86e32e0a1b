/** Failure-compatible wrappers shared by the other modules. */
module Wrappers {
  /** A nullable column or an optional property. */
  datatype Option<+T> = None | Some(value: T)

  /** A value, or the error the service would have thrown. */
  datatype Result<+T, +E> = Ok(value: T) | Err(error: E)
}
