/** How an operation of the modelled program can end. */
module Outcomes {

  /** A Go function that panics on a caller's mistake. */
  datatype Checked<+T> = Ok(value: T) | Panic

  /** A Go function with an error return. */
  datatype Result<+T> = Success(value: T) | Failure

  datatype Option<+T> = None | Some(value: T)
}
