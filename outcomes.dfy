/** The optional value and the value-or-error result used across the model. */
module Outcomes {

  datatype Option<T> = None | Some(value: T)

  /** A call that either produced a value or failed with an error message
      (Go's `(value, error)` return pair). */
  datatype Result<T> = Ok(value: T) | Err(error: string)
}
