/** Failure-carrying results shared by the whole model. */
module Wrappers {

  datatype Option<+T> = None | Some(value: T)

  /** The Python exception a code path raises, when it raises one. */
  datatype PyError = TypeError | IndexError | ValueError | KeyError | NameError | AttributeError

  datatype Result<+T> = Ok(value: T) | Err(error: PyError)
}
