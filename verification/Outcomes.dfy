/** Shared result types: the sources' exceptions, `Result`s and `None`s as values. */
module Outcomes {

  datatype Option<+T> = None | Some(value: T)

  datatype Result<+T, +E> = Ok(value: T) | Err(error: E)
}
