/** Results of the contact book's operations: Python's `None` and its exceptions as values. */
module Outcomes {

  /** `None` or a value, for the lookups (`find_phone`, `find`) that return `None` when nothing matches. */
  datatype Option<T> = None | Some(value: T)

  /** The exceptions the contact book raises, with the message the source attaches. */
  datatype Error =
    | ValueError(message: string)
    | AttributeError(message: string)

  /** A call that either returns normally or raises. */
  datatype Result<T> = Ok(value: T) | Err(error: Error)
}
