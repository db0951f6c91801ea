/** The exceptions the Verdandi core throws, and the result types that carry them. */
module Errors {

  /** Exception classes thrown by the modelled code. `Singular` stands for the
      failure LAPACK or SuperLU reports on a singular matrix; `Exhausted` is not
      an exception of the library: it marks a run that used up the finite prefix
      of random draws the model was given before its loop exited. */
  datatype Error =
    | ErrorArgument
    | ErrorConfiguration
    | ErrorUndefined
    | Singular
    | Exhausted

  datatype Result<+T> = Ok(value: T) | Err(error: Error) {
    predicate IsFailure() { Err? }
    function PropagateFailure<U>(): Result<U> requires Err? { Err(error) }
    function Extract(): T requires Ok? { value }
  }

  datatype Outcome = Pass | Fail(error: Error) {
    predicate IsFailure() { Fail? }
    function PropagateFailure(): Outcome requires Fail? { this }
  }

  datatype Option<+T> = None | Some(value: T)
}
