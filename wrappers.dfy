/** Option, Result and Outcome, and the Python exception kinds that the
    modelled code raises. */
module Wrappers {

  datatype Option<+T> = None | Some(value: T)

  /** The exception classes raised by the modelled code. */
  datatype Error =
    | ValueError(msg: string)
    | TypeError
    | IndexError
    | RuntimeError(msg: string)
    | NotImplementedError
    | AttributeError

  datatype Result<+T> = Ok(value: T) | Err(error: Error) {
    predicate IsFailure() { Err? }
    function PropagateFailure<U>(): Result<U>
      requires Err?
    {
      Err(error)
    }
    function Extract(): T
      requires Ok?
    {
      value
    }
  }

  /** A check that either passes or raises. */
  datatype Outcome = Pass | Fail(error: Error)
}
