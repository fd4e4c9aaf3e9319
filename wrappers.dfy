/** Failure-carrying values standing in for Python's None and raised exceptions. */
module Wrappers {

  /** Python's Optional[T]. */
  datatype Option<+T> = None | Some(value: T)

  /** The exceptions the modelled code raises. */
  datatype Exception = ValueError(message: string) | FileNotFoundError(message: string)

  /** A call that either returns a value or raises. */
  datatype Result<+T> = Ok(value: T) | Err(error: Exception)

  /** Python truthiness of an optional string: neither None nor "". */
  predicate Truthy(o: Option<string>) {
    o.Some? && o.value != ""
  }
}
