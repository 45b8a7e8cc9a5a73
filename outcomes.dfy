/** The outcome of an operation that either produces a value or raises. */
module Outcomes {

  datatype Result<+T, +E> = Ok(value: T) | Err(error: E)
}
