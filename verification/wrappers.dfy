/** Option and Result types, and the Python exceptions the start-up code raises.
    Every exception the modelled code can raise becomes a `PyError` value, and
    every operation that can raise returns a `Result`. */
module Wrappers {

  datatype Option<+T> = None | Some(value: T) {
    function GetOr(default: T): T {
      match this
      case Some(v) => v
      case None => default
    }
  }

  /** The exception kinds raised by the start-up code, each with the key,
      type name or text the message is about. */
  datatype PyError =
    | AttributeError(what: string)
    | TypeError(what: string)
    | ValueError(what: string)
    | KeyError(what: string)
    | IndexError(what: string)
    | SyntaxError(what: string)
    | NotImplementedError(what: string)
    | NotADirectoryError(what: string)
    | FileNotFoundError(what: string)
    | RecursionError(what: string)
    | NoTypeFoundError(what: string)
    | NoConstructorError(what: string)
    | DuplicateTypeError(what: string)
    | MissingRequiredKeysError(what: string)
    | IncorrectFileTypeError(what: string)

  datatype Result<+T> = Ok(value: T) | Err(error: PyError) {
    predicate IsFailure() {
      Err?
    }

    function PropagateFailure<U>(): Result<U>
      requires Err?
    {
      Err(error)
    }

    function Extract(): T
      requires Ok?
    {
      value
    }
  }
}
