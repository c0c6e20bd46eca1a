/** The two result shapes the model uses for absent values and raised errors. */
module Wrappers {

  datatype Option<+T> = None | Some(value: T)

  /** `Err` stands for a raised exception; the error value says which one. */
  datatype Result<+T, +E> = Ok(value: T) | Err(error: E)
}
