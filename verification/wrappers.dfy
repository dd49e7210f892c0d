/** Failure-carrying values shared by every module of the model.
    Python's `None` becomes `Option.None`; a raised exception becomes `Result.Err`. */
module Wrappers {

  datatype Option<+T> = None | Some(value: T)

  datatype Result<+T, +E> = Ok(value: T) | Err(error: E)
}
