/** Failure-compatible results shared by every component. */
module Wrappers {

  datatype Option<+T> = None | Some(value: T)

  /** A value, or the reason for which the original raises. */
  datatype Result<+T, +E> = Ok(value: T) | Refused(reason: E) {

    predicate IsFailure() {
      Refused?
    }

    function PropagateFailure<U>(): Result<U, E>
      requires Refused?
    {
      Refused(reason)
    }

    function Extract(): T
      requires Ok?
    {
      value
    }
  }

  datatype Outcome<+E> = Pass | Fail(error: E) {

    predicate IsFailure() {
      Fail?
    }

    function PropagateFailure<U>(): Result<U, E>
      requires Fail?
    {
      Refused(error)
    }
  }

  /** The original's `require(condition, reason)`. */
  function Need<E>(condition: bool, error: E): Outcome<E> {
    if condition then Pass else Fail(error)
  }
}
