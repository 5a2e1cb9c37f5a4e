/** The two result shapes the model's operations return. */
module Wrappers {

  /** A value the source may lack (`None` in a lookup, a missing status key). */
  datatype Option<+T> = None | Some(value: T)

  /** An operation that either yields a value or raises one of the operator's errors. */
  datatype Result<+T, +E> = Ok(value: T) | Err(error: E)
}
