/** Value wrappers shared by the whole model. */
module Results {

  /** A JavaScript value that may be `undefined`/`null` (None) or present (Some). */
  datatype Option<+T> = None | Some(value: T)

  /** The outcome of a call that may throw: its value, or the message of the error it threw. */
  datatype Result<+T> = Ok(value: T) | Err(message: string)
}
