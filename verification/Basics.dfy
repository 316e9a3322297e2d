/** Small result types shared by the models. */
module Basics {

  datatype Option<+T> = None | Some(value: T)

  /** A source operation either returns or raises; `error` says which exception it raises. */
  datatype Result<+T, +E> = Ok(value: T) | Err(error: E)
}
