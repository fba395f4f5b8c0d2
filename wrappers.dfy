/** Option and Result: absence and failure as values. Python exceptions that the
    application catches become `Err` carrying the exception's `str(e)`. */
module Wrappers {

  datatype Option<+T> = None | Some(value: T)

  datatype Result<+T> = Ok(value: T) | Err(error: string)

  /** A step that yields nothing but may raise (a write, an unlink). */
  datatype Step = Completed | Raised(error: string)
}
