/** Option and Result types shared by the whole model, and the runtime errors
    (Python exceptions, unchecked Java exceptions) that the modelled code can raise. */
module Wrappers {

  datatype Option<T> = None | Some(value: T)

  /** The exceptions that escape the modelled functions, named after the runtime
      condition that raises them. */
  datatype Error =
    | KeyError(key: string)          // Python dict lookup of a missing key
    | IndexError                     // Python list index out of range
    | UnboundName(name: string)      // Python local read before assignment
    | NumberFormat(input: string)    // Java Integer.parseInt on a non-integer
    | StringIndexOutOfBounds         // Java charAt or deleteCharAt outside a string
    | IllegalArgument                // Java Arrays.copyOfRange with start > end
    | NullPointer                    // Java call through a null reference
    | Failure(message: string)       // an exception thrown with a message

  datatype Result<T> = Ok(value: T) | Err(error: Error)
}
