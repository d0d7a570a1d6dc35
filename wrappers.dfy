/** Option and Result, and the exception kinds the modelled code throws. */
module Wrappers {

  datatype Option<+T> = None | Some(value: T)
  {
    function UnwrapOr(default: T): T
    {
      match this
      case None => default
      case Some(v) => v
    }
  }

  /** The Java exception classes the core throws, each with its message. */
  datatype Error =
    | IllegalArgument(msg: string)
    | IllegalState(msg: string)
    | QueryValidation(msg: string)
    | NullPointer(msg: string)
    | UnsupportedOperation(msg: string)
    | Backend(msg: string)

  /** A value, or the exception that ended the computation. */
  datatype Result<+T> = Ok(value: T) | Err(error: Error)
  {
    predicate IsFailure() { Err? }

    function PropagateFailure<U>(): Result<U>
      requires Err?
    {
      Err(error)
    }

    function Extract(): T
      requires Ok?
    {
      value
    }
  }
}
