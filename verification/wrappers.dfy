/** Failure-compatible result type. Every exception the modelled code raises
    (ValueError, KeyError, IndexError, pydantic validation errors) is one
    generic `Failure`: callers of the library only distinguish success from
    failure. */
module Wrappers {

  datatype Option<+T> = None | Some(value: T)

  datatype Result<+R> = Success(value: R) | Failure {

    predicate IsFailure() {
      Failure?
    }

    function PropagateFailure<U>(): Result<U>
      requires Failure?
    {
      Failure
    }

    function Extract(): R
      requires Success?
    {
      value
    }
  }

  /** Fails unless `condition` holds; used with `:-`. */
  datatype Outcome = Pass | Fail {

    predicate IsFailure() {
      Fail?
    }

    function PropagateFailure<U>(): Result<U>
      requires Fail?
    {
      Failure
    }
  }

  function Need(condition: bool): (r: Outcome)
    ensures r.Pass? <==> condition
  {
    if condition then Pass else Fail
  }
}
