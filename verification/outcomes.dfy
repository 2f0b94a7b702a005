/** The two shapes of "maybe" in the weather code: a value that may be
    absent (a posted field, an environment variable), and the outcome of one
    Python operation on the response body, which yields a value or the
    exception it raises. */
module Outcomes {

  datatype Option<+T> = None | Some(value: T) {

    /** The value, or `default` in its absence, as `dict.get(key, default)`
        reads a posted field. */
    function GetOr(default: T): T {
      match this
      case Some(v) => v
      case None => default
    }
  }

  /** An operation's outcome. The members below let a chain of operations
      written with `:-` stop at the first exception, as a Python expression
      stops evaluating when one of its subscripts raises. */
  datatype Result<+T, +E> = Success(value: T) | Failure(error: E) {

    predicate IsFailure() {
      Failure?
    }

    function PropagateFailure<U>(): Result<U, E>
      requires Failure?
    {
      Failure(error)
    }

    function Extract(): T
      requires Success?
    {
      value
    }
  }
}
