/** The two kinds of exception the contact book raises, as values. */
module Errors {

  /** `ValueError` is a failed field validation; `KeyError` carries the missing
      (or already present) phone number or contact name. */
  datatype Error = ValueError | KeyError(key: string)

  /** The outcome of an operation that either returns a value or raises. */
  datatype Result<+T> = Ok(value: T) | Err(error: Error)
}
