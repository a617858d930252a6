/** Failure-carrying values shared by the model: `Option` stands for a cell
    that may be missing (pandas NaN), `Result` for an operation that raises. */
module Wrappers {

  datatype Option<+T> = None | Some(value: T)

  datatype Result<+R, +E> = Ok(value: R) | Err(error: E)
}
