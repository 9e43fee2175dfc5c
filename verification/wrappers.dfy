/** Small failure-carrying datatypes used by the component model. */
module Wrappers {

  /** A value that may be absent, like a nullable state slot. */
  datatype Option<+T> = None | Some(value: T)

  /** Either a computed value or an error message. */
  datatype Result<+T, +E> = Ok(value: T) | Err(error: E)
}
