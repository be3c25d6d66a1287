/** Failure-carrying values shared by every module of the model.

    Python's `None` becomes `Option.None`; an exception raised by the code
    (an HTTP abort, a `ValueError`, ...) becomes `Result.Err` carrying the
    kind of error, so every error path of the source is an ordinary value. */
module Wrappers {

  datatype Option<+T> = None | Some(value: T) {
    function GetOr(default: T): T {
      match this
      case Some(v) => v
      case None => default
    }
  }

  /** The exceptions the modelled code raises, by kind. */
  datatype Error =
    | Abort(status: int, message: string)   // flask.abort(status, message)
    | ValueError(message: string)
    | OverflowError                         // date arithmetic past year 9999
    | TypeError                             // e.g. comparing str with int, unpacking None
    | KeyError(key: string)
    | IndexError
    | AttributeError
    | ZeroDivisionError
    | IntegrityError(constraint: string)    // a database constraint rejected a row
    | DatabaseError(message: string)        // the database refused the query itself
    | FileExistsError                       // mkdir of a folder that is already there
    | FileNotFoundError                     // opening a file in a missing folder
    | DriverError                           // fiona cannot open a missing shapefile

  datatype Result<+T> = Ok(value: T) | Err(error: Error) {
    predicate IsFailure() {
      Err?
    }

    function PropagateFailure<U>(): Result<U>
      requires Err?
    {
      Err(error)
    }

    function Extract(): T
      requires Ok?
    {
      value
    }
  }
}
