/** Result type for operations of the inspected class that can throw. */
module Wrappers {

  /** `Ok` carries the value an operation returns; `Err` the message of the exception it throws. */
  datatype Result<T> = Ok(value: T) | Err(error: string)
}
