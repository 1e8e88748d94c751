/** Option and Result, the two shapes every operation of the model returns. */
module Wrappers {

  /** A value that may be absent (JavaScript `undefined` or `null`). */
  datatype Option<+T> = None | Some(value: T)

  /** The outcome of an asynchronous call: its value, or the message of the error it threw. */
  datatype Result<+T> = Ok(value: T) | Err(message: string)
}
