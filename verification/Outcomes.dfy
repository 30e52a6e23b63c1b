/** Option and Result, standing for `std::optional`, `npos` and the exceptions of the source. */
module Outcomes {
  datatype Option<+T> = None | Some(value: T)

  datatype Result<+T, +E> = Ok(value: T) | Err(error: E)
}
