/** Option and Result, the shapes used for JavaScript's `null`/`undefined` and for exceptions. */
module Wrappers {

  datatype Option<T> = None | Some(value: T)

  /** `Failure` stands for an exception that propagates out of the call. */
  datatype Result<T, E> = Success(value: T) | Failure(error: E) {

    predicate IsFailure() {
      Failure?
    }

    function PropagateFailure<U>(): Result<U, E>
      requires Failure?
    {
      Failure(error)
    }

    function Extract(): T
      requires Success?
    {
      value
    }
  }
}
