/** Go's nil pointers and `(value, error)` return pairs, as values. */
module Wrappers {

  /** A value that may be absent: a nil pointer, a nil map. */
  datatype Option<+T> = None | Some(value: T) {

    /** The wrapped value, or `default` when absent (how a nil map reads). */
    function GetOr(default: T): T {
      match this
      case Some(v) => v
      case None => default
    }
  }

  /** The outcome of a Go call returning `(value, error)`. Failure-compatible,
      so `:-` returns the first error as Go's `if err != nil { return }` does. */
  datatype Result<+T, +E> = Success(value: T) | Failure(error: E) {

    predicate IsFailure() {
      Failure?
    }

    function PropagateFailure<U>(): Result<U, E>
      requires Failure?
    {
      Failure(error)
    }

    function Extract(): T
      requires Success?
    {
      value
    }
  }
}
