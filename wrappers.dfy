/** Failure-compatible result types used for the Java exceptions of the model. */
module Wrappers {

  /** Some value, or nothing (a Java `null` or an absent result). */
  datatype Option<+T> = None | Some(value: T)

  /** A value, or the error a Java method would have thrown instead. */
  datatype Result<+R, +E> = Success(value: R) | Failure(error: E) {
    predicate IsFailure() { Failure? }

    function PropagateFailure<U>(): Result<U, E>
      requires Failure?
    {
      Failure(error)
    }

    function Extract(): R
      requires Success?
    {
      value
    }
  }

  /** The outcome of a call that either completes or throws. */
  datatype Outcome<+E> = Pass | Fail(error: E)
}
