/** Failure-carrying result types shared by every module of the model. */
module Wrappers {

  datatype Option<+T> = None | Some(value: T)

  /** The three ways a Go call can end: a value, a returned `error`, or a panic. */
  datatype Outcome<+T> = Ok(value: T) | Err(error: string) | Panic(reason: string)
}
