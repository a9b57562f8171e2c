/** Failure-carrying results shared by every module of the model. */
module Wrappers {

  datatype Option<+T> = None | Some(value: T)

  /** The Python exceptions the core raises, by kind. */
  datatype Error =
    | ValueError(reason: string)
    | KeyError(key: int)
    | KeyErrorMessage(message: string)
    | IndexError(index: int)

  datatype Result<+T> = Ok(value: T) | Err(error: Error)
}
