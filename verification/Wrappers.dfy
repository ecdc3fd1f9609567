/** The two result shapes every module of the project shares. */
module Wrappers {

  datatype Option<+T> = None | Some(value: T)

  /** A value, or the fault the source reports in its place. */
  datatype Result<+T, +E> = Success(value: T) | Failure(error: E) {
    predicate IsFailure() {
      Failure?
    }

    function PropagateFailure<U>(): Result<U, E>
      requires Failure?
    {
      Failure(error)
    }

    function Extract(): T
      requires Success?
    {
      value
    }
  }
}
