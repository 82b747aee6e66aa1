/** Value types shared by every module of the model. */
module Common {

  datatype Option<+T> = None | Some(value: T)

  /** A call either returns a value or raises; `error` names the exception class. */
  datatype Result<+T, +E> = Ok(value: T) | Err(error: E)
}
