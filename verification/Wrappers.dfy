module Wrappers {
  /** A nullable column, or a lookup that may find nothing. */
  datatype Option<+T> = None | Some(value: T)

  /** An answer, or the code of the error the source throws. */
  datatype Result<+T, +E> = Ok(value: T) | Err(error: E)
}
