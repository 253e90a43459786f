/** Option and Result, the two wrappers the pipeline uses for values that
    may be missing (a NaN cell, an unmatched join key) and for lookups that
    raise in the original scripts. */
module Common {

  datatype Option<+T> = None | Some(value: T)

  datatype Result<+T, +E> = Ok(value: T) | Err(error: E)
}
