/** Failure-carrying values used across the model. */
module Wrappers {

  /** An optional value. */
  datatype Option<+T> = None | Some(value: T)

  /** The outcome of an operation that can fail (a rusqlite or Telegram request error);
      the error's payload is not modelled. */
  datatype Result<+T> = Ok(value: T) | Err
}
