/** Option and Result, with the Python exception classes the SDK raises. */
module Wrappers {

  datatype Option<+T> = None | Some(value: T)
  {
    predicate IsSome() { Some? }
  }

  /** The exception classes that cross the SDK's public surface. */
  datatype ErrorKind = ValueError | TypeError | KeyError | AttributeError | IndexError | FileNotFound | ImportError

  datatype Error = Error(kind: ErrorKind, message: string)

  datatype Result<+T> = Ok(value: T) | Err(error: Error)
  {
    predicate IsFailure() { Err? }

    function PropagateFailure<U>(): Result<U>
    {
      match this
      case Err(e) => Err(e)
      case Ok(_) => Err(Error(ValueError, ""))   // never used: `:-` propagates only failures
    }

    function Extract(): T
      requires Ok?
    {
      value
    }
  }

  function Fail<T>(kind: ErrorKind, message: string): Result<T>
  {
    Err(Error(kind, message))
  }
}
