/** The closed set of failures the driver reports, and its `Result` type. */
module Errors {

  datatype Error =
    | Transport                 // I/O failure, request encoding failure, or decoder error
    | Timeout                   // nothing at all was received within the response window
    | Modbus                    // no complete frame, or an exception reply from the device
    | UnexpectedResponseType    // the reply is not the kind of the request
    | UnexpectedResponseLength(actual: nat, expected: nat)  // wrong register count
    | UnexpectedResponseData    // a word or echo that does not match

  /** `core::result::Result<T, Error>`, usable with `:-` like Rust's `?`. */
  datatype Result<+T> = Ok(value: T) | Err(error: Error)
  {
    predicate IsFailure() { Err? }

    function PropagateFailure<U>(): Result<U>
      requires Err?
    {
      Err(error)
    }

    function Extract(): T
      requires Ok?
    {
      value
    }
  }
}
