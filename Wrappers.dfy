/** Option and Result values: the model's stand-ins for C# null / TypeScript
    undefined and for exceptions thrown by the services. */
module Wrappers {

  datatype Option<+T> = None | Some(value: T)

  /** A value or the exception that was thrown instead; `:-` propagates the exception. */
  datatype Result<+T, +E> = Success(value: T) | Failure(error: E)
  {
    predicate IsFailure() {
      Failure?
    }

    function PropagateFailure<U>(): Result<U, E>
      requires Failure?
    {
      Failure(error)
    }

    function Extract(): T
      requires Success?
    {
      value
    }
  }

  /** A check that either passes or fails with an error (a `void` method that may throw). */
  datatype Outcome<+E> = Pass | Fail(error: E)
}
