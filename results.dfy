/** Failure-carrying results for the operations that raise in the original code. */
module Results {

  /** A value that may be absent (where `str.index` raises, for instance). */
  datatype Option<+T> = None | Some(value: T)

  /** Either a value or the error the original code raises instead. */
  datatype Result<+T, +E> = Ok(value: T) | Err(error: E)
}
