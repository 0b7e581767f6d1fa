/** Failure-carrying wrappers shared by the whole model. */
module Wrappers {

  /** A value that may be absent: a missing request field, a lookup that found nothing. */
  datatype Option<+T> = None | Some(value: T)

  /** The outcome of an operation that can be refused. */
  datatype Result<+T, +E> = Ok(value: T) | Err(error: E)
}
