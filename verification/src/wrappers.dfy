/** Failure-carrying results for the exceptions the library raises. */
module Wrappers {

  /** The exception classes the modelled code raises. */
  datatype Error =
    | BoundarySetup    // BoundarySetupException
    | ValueError
    | IndexError
    | KeyError
    | NotImplemented   // NotImplementedError

  datatype Result<+T> = Success(value: T) | Failure(error: Error) {
    predicate IsFailure() {
      Failure?
    }

    function PropagateFailure<U>(): Result<U>
      requires Failure?
    {
      Failure(error)
    }

    function Extract(): T
      requires Success?
    {
      value
    }
  }

  datatype Option<+T> = None | Some(value: T)
}
