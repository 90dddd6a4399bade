/** Option and Result: the model's stand-ins for Python's None and for raised exceptions. */
module Wrappers {

  datatype Option<+T> = None | Some(value: T) {
    function GetOr(default: T): T {
      match this
      case Some(v) => v
      case None => default
    }
  }

  /** What made an operation stop: `logger.exit`/`sys.exit`, or a Python exception. */
  datatype Error =
    | Exit(message: string)      // logger.exit / sys.exit
    | KeyError(key: string)      // dict[key] with key absent
    | TypeError(what: string)    // operation on a value of the wrong type
    | ValueError(what: string)   // e.g. unpacking the wrong number of values
    | IndexError(what: string)   // list index out of range
    | AttributeError(what: string) // attribute missing on the object's type
    | NameError(what: string)    // local name read before assignment
    | ValidationError            // jsonschema.validate rejecting an instance
    | ZeroDivision
    | FileNotFound(path: string) // open() of a file in a directory that does not exist

  datatype Result<+T> = Ok(value: T) | Err(error: Error) {
    predicate IsFailure() { Err? }
    function PropagateFailure<U>(): Result<U>
      requires Err?
    {
      Err(error)
    }
    function Extract(): T
      requires Ok?
    {
      value
    }
  }
}
