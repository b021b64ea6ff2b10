/** Results and the Python exceptions that the modelled code raises. */
module Errors {

  datatype Option<T> = None | Some(value: T)

  /** An exception of the source, with its message where the source gives one. */
  datatype Error =
    | ValueError(message: string)
    | NotImplementedError(message: string)
    | TypeError(message: string)
    | RuntimeError(message: string)
    | AssertionError(message: string)
    | IndexError
    | ZeroDivisionError

  /** The outcome of an operation that may raise. */
  datatype Result<T> = Ok(value: T) | Err(error: Error)
}
