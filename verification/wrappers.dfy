/** Failure-compatible wrappers shared by every module of the bridge model.
    The C# code signals errors with exceptions carrying a message; here an
    exception is an `Err` carrying that message. */
module Wrappers {

  datatype Option<+T> = None | Some(value: T) {
    predicate IsFailure() { None? }

    function PropagateFailure<U>(): Option<U>
      requires None?
    {
      None
    }

    function Extract(): T
      requires Some?
    {
      value
    }

    function GetOr(default: T): T {
      match this
      case Some(v) => v
      case None => default
    }
  }

  /** The outcome of a C# call that either returns a value or throws an
      exception whose message is `msg`. */
  datatype Result<+T> = Ok(value: T) | Err(msg: string) {
    predicate IsFailure() { Err? }

    function PropagateFailure<U>(): Result<U>
      requires Err?
    {
      Err(msg)
    }

    function Extract(): T
      requires Ok?
    {
      value
    }
  }

  /** `Need(c, m)` throws `m` unless `c` holds. */
  datatype Outcome = Pass | Fail(msg: string) {
    predicate IsFailure() { Fail? }

    function PropagateFailure<U>(): Result<U>
      requires Fail?
    {
      Err(msg)
    }
  }

  function Need(condition: bool, msg: string): (r: Outcome)
  {
    if condition then Pass else Fail(msg)
  }
}
