/** Small failure-carrying datatypes shared by the CIGAR model. */
module Wrappers {

  /** Python's `None` as an explicit alternative. */
  datatype Option<+T> = None | Some(value: T)

  /** A value, or the exception the Python code would raise instead. */
  datatype Result<+T, +E> = Ok(value: T) | Err(error: E)
}
