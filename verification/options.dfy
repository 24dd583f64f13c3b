/** Optional values and results carrying an error message: the "nothing emitted"
    and "the scan stops with an exception" outcomes of the DNS evaluator. */
module Options {

  /** A value that may be missing: an average that was not emitted, a lookup that failed. */
  datatype Option<+T> = None | Some(value: T)

  /** Either a value or the message of the exception the script would throw. */
  datatype Result<+T> = Ok(value: T) | Err(message: string)
}
