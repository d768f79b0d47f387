/** Failure-carrying results shared by the store and the cache. */
module Wrappers {

  datatype Option<+T> = None | Some(value: T)

  /**
   * The exception the store raises to its callers on its own: a key or
   * list/dict name that is not a string.
   */
  datatype PickleError = KeyStringError

  /** Either the value a call returns, or the exception it raises. */
  datatype Result<+T> = Ok(value: T) | Raised(error: PickleError)
}
