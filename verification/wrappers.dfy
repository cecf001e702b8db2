/** Failure-compatible wrappers shared by the whole model. `Result` is used with
    `:-`, so that the first error aborts the computation that produced it, which is
    how a thrown exception behaves in the code generator. */
module Wrappers {

  datatype Option<+T> = None | Some(value: T)

  datatype Result<+T, +E> = Success(value: T) | Failure(error: E) {

    predicate IsFailure() {
      Failure?
    }

    function PropagateFailure<U>(): Result<U, E>
      requires Failure?
    {
      Failure(error)
    }

    function Extract(): T
      requires Success?
    {
      value
    }
  }
}
