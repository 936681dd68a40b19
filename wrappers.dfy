/** Option and Result: a lookup that can miss, and an operation that can raise. */
module Wrappers {

  datatype Option<+T> = None | Some(value: T)

  /** `Err` stands for a Ruby exception raised out of the operation. */
  datatype Result<+T, +E> = Ok(value: T) | Err(error: E)
}
