/** The two failure-carrying types shared by every module. */
module Outcome {

  datatype Option<+T> = None | Some(value: T)

  /** A step either returns a value or throws an error with a code. */
  datatype Result<+T> = Ok(value: T) | Err(code: string)
}
