/** Option and Result values used across the model for the source's `Option`,
 *  `Result`, `None` returns and raised exceptions. */
module Wrappers {
  datatype Option<T> = None | Some(value: T)

  /** The error side carries a short message naming the failure. */
  datatype Result<T> = Ok(value: T) | Err(error: string)
}
