/** Failure-carrying values shared by the kit codec, the kit manager and the stats record. */
module Results {

  /** A value that may be absent: what a name resolver returns. */
  datatype Option<+T> = None | Some(value: T)

  /** Either a value or the error that prevented computing it: an operation that may throw. */
  datatype Result<+T, +E> = Ok(value: T) | Err(error: E)

  /** Success without a value, or the error raised instead. */
  datatype Outcome<+E> = Pass | Fail(error: E)
}
