/** Option, and the outcome of a Python call that may raise an exception its caller does not catch. */
module Wrappers {

  datatype Option<+T> = None | Some(value: T)

  /** The exceptions that can escape the configuration readers. */
  datatype PyError = TypeError | AttributeError

  /** A Python call either returns a value or raises an exception nothing catches. */
  datatype PyResult<+T> = Returned(value: T) | Raised(error: PyError)
}
