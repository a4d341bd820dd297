/** Failure-compatible results shared by every module of the model.
    Python exceptions are modelled by the kind of exception only; the
    message text is not part of the model. */
module Wrappers {

  /** The exception classes the modelled code raises. */
  datatype ErrorKind =
    | ValueError
    | RuntimeError
    | NotImplementedError
    | TypeError
    | AssertionError
    /** An exception raised by caller-supplied code (the body of a `with` block). */
    | BodyError

  datatype Option<+T> = None | Some(value: T) {
    function GetOr(default: T): T {
      match this
      case Some(v) => v
      case None => default
    }
  }

  datatype Result<+T> = Ok(value: T) | Err(error: ErrorKind) {
    predicate IsFailure() { Err? }
    function PropagateFailure<U>(): Result<U>
      requires Err?
    {
      Err(error)
    }
    function Extract(): T
      requires Ok?
    {
      value
    }
  }

  datatype Outcome = Pass | Fail(error: ErrorKind) {
    predicate IsFailure() { Fail? }
    function PropagateFailure(): Outcome
      requires Fail?
    {
      this
    }
  }
}
