/** Option and Result, the shapes in which the model states "nothing" and "an exception was raised". */
module Wrappers {

  datatype Option<+T> = None | Some(value: T)

  /** Err carries the message that str(e) gives for the raised exception. */
  datatype Result<+T> = Ok(value: T) | Err(error: string)
}
