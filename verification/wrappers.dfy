/** Option and Result types shared by every module, and the Python exception
    kinds the modelled code raises. */
module Wrappers {

  datatype Option<+T> = None | Some(value: T)
  {
    function GetOr(default: T): T {
      match this
      case Some(v) => v
      case None => default
    }
  }

  /** The exception classes raised by the modelled code. The message text is
      kept so that stored error strings (`str(e)`) can be followed. */
  datatype Error =
    | ValueError(msg: string)
    | TypeError(msg: string)
    | KeyError(key: string)
    | IndexError(msg: string)
    | RuntimeError(msg: string)
    | FileNotFoundError(msg: string)
    | AssertionError(msg: string)
    | UsageError(msg: string)
    | PluginError(msg: string)
    | AttributeError(name: string)
    | SyntaxError(msg: string)
    | OverflowError(msg: string)
  {
    /** `str(e)`: the message; a KeyError shows its key quoted. */
    function Message(): string {
      match this
      case KeyError(k) => "'" + k + "'"
      case FileNotFoundError(m) => m
      case AttributeError(n) => n
      case ValueError(m) => m
      case TypeError(m) => m
      case IndexError(m) => m
      case RuntimeError(m) => m
      case AssertionError(m) => m
      case UsageError(m) => m
      case PluginError(m) => m
      case SyntaxError(m) => m
      case OverflowError(m) => m
    }
  }

  /** A computation that either returns a value or raises. */
  datatype Result<+T> = Ok(value: T) | Err(error: Error)
  {
    predicate IsFailure() { Err? }

    function PropagateFailure<U>(): Result<U>
      requires Err?
    {
      Err(error)
    }

    function Extract(): T
      requires Ok?
    {
      value
    }
  }
}
