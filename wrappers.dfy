/** Option and Result, used for JavaScript's `undefined`/`null` and for thrown errors. */
module Wrappers {

  datatype Option<+T> = None | Some(value: T)

  /** A computation that either produced a value or threw an error carrying a message. */
  datatype Result<+T> = Ok(value: T) | Err(message: string)
}
