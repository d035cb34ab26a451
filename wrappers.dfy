/** Option and Result values for lookups that may miss and handlers that may fail. */
module Wrappers {

  /** The outcome of a lookup: `None` when nothing matched. */
  datatype Option<T> = None | Some(value: T)

  /** The outcome of a handler: the updated document, or the reason it was rejected. */
  datatype Result<T, E> = Ok(value: T) | Err(error: E)
}
