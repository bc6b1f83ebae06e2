/** Failure-carrying datatypes shared by every module of the model.

    Python code signals failure by raising; the model returns a `Result` whose
    `Failure` case names the exception class that the source would raise. */
module Wrappers {

  datatype Option<+T> = None | Some(value: T)

  /** The Python exception classes that the modelled code can raise. */
  datatype Exception =
    | KeyError
    | IndexError
    | TypeError
    | ValueError
    | AttributeError
    | ZeroDivisionError

  datatype Result<+T> = Success(value: T) | Failure(error: Exception)
}
