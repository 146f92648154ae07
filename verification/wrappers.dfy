/** Failure-compatible wrappers used by every registry and bridge in the model. */
module Wrappers {

  /** An optional value: `None` stands for Rust's `None`, a missing map entry or a
      lookup that failed without an error worth reporting. */
  datatype Option<+T> = None | Some(value: T) {

    function GetOr(default: T): T {
      match this
      case Some(v) => v
      case None => default
    }
  }

  /** The outcome of a fallible command: `Success` carries the value handed back to
      the caller, `Failure` the error code it is rejected with. */
  datatype Result<+R, +E> = Success(value: R) | Failure(error: E) {

    predicate IsFailure() {
      Failure?
    }

    function PropagateFailure<U>(): Result<U, E>
      requires Failure?
    {
      Failure(error)
    }

    function Extract(): R
      requires Success?
    {
      value
    }
  }

  /** True iff no element occurs twice in `s`. */
  predicate Distinct<T(==)>(s: seq<T>) {
    forall i, j | 0 <= i < j < |s| :: s[i] != s[j]
  }
}
