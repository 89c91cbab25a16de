/** Failure-compatible wrappers for the simulator model: the exceptions that
    `simulate_data` can raise become `Failure` values. */
module Outcomes {

  datatype Option<+T> = None | Some(value: T)

  /** Which exception a run of the simulator raises. */
  datatype Error =
    /** numpy refuses a negative size: a draw of shape (n, m) with n or m
        negative, or np.repeat / np.tile with a negative count. */
    | NegativeSize
    /** `np.random.seed` refuses a seed outside 0 .. 2**32 - 1. */
    | InvalidSeed
    /** The feature-name dictionary has no entry for this omic (a KeyError). */
    | UnknownOmic(key: string)
    /** pandas refuses row or column labels that do not match the matrix shape. */
    | ShapeMismatch
    /** pandas refuses a table whose columns have different lengths. */
    | LengthMismatch

  datatype Result<+T> = Success(value: T) | Failure(error: Error) {

    predicate IsFailure() {
      Failure?
    }

    function PropagateFailure<U>(): Result<U>
      requires Failure?
    {
      Failure(error)
    }

    function Extract(): T
      requires Success?
    {
      value
    }
  }
}
