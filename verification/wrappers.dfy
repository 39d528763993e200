/** Failure-compatible wrappers used by both compiler passes. */
module Wrappers {

  /** An optional value: the source's `None` or a present node. */
  datatype Option<+T> = None | Some(value: T)

  /** The outcome of a pass that may raise: a value, or the error it raised. */
  datatype Result<+T, +E> = Success(value: T) | Failure(error: E) {

    predicate IsFailure() {
      Failure?
    }

    function PropagateFailure<U>(): Result<U, E>
      requires Failure?
    {
      Failure(error)
    }

    function Extract(): T
      requires Success?
    {
      value
    }
  }
}
