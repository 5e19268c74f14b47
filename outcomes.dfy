/**
 * Optional values and success-or-failure results, usable with `:-`.
 */
module Outcomes {

  datatype Option<T> = None | Some(value: T)

  /** A computation that either produced a value or failed with an error `E`. */
  datatype Result<T, E> = Ok(value: T) | Failure(error: E) {
    predicate IsFailure() {
      Failure?
    }

    function PropagateFailure<U>(): Result<U, E>
      requires Failure?
    {
      Failure(error)
    }

    function Extract(): T
      requires Ok?
    {
      value
    }
  }
}
