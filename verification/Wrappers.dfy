/** Failure-compatible wrappers used throughout the model, and the error taxonomy
    of the coordinate-extraction and deviation-analysis core. */
module Wrappers {

  /** A value that may be absent: Python's `None` or a missing dictionary key. */
  datatype Option<+T> = None | Some(value: T) {

    /** Returns the wrapped value, or `default` when absent (Python's `dict.get(key, default)`). */
    function GetOr(default: T): T {
      match this
      case Some(v) => v
      case None => default
    }
  }

  /** Either a computed value or the exception the source would raise. */
  datatype Result<+R, +E> = Success(value: R) | Failure(error: E) {

    predicate IsFailure() {
      Failure?
    }

    function PropagateFailure<U>(): Result<U, E>
      requires Failure?
    {
      Failure(error)
    }

    function Extract(): R
      requires Success?
    {
      value
    }
  }

  /** The exceptions the core raises to its caller. */
  datatype Error =
    | ParseError(token: string)  // `float(token)` raised ValueError
    | MissingKey(key: string)    // `test_case[key]` raised KeyError
    | EmptyAlignment             // no aligned waypoint pair: `deviations[:, 0]` raised IndexError
    | ShapeMismatch              // numpy refused the waypoint arrays (ragged rows, or widths that do not broadcast to 3)
}
