/** Option and Result, used for the outcomes that the printer script reports
    as exceptions (a missing placeholder, an unparsable date). */
module Wrappers {

  datatype Option<+T> = None | Some(value: T)

  datatype Result<+T, +E> = Ok(value: T) | Err(error: E)
}
