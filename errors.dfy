/** The exceptions the program throws, as values. */
module Errors {

  datatype Error =
    /** `std::invalid_argument`, with its message. */
    | InvalidArgument(message: string)
    /** `std::length_error`: a vector was asked for a negative (so, huge) size. */
    | LengthError

  datatype Result<T> = Ok(value: T) | Err(error: Error)

  datatype Option<T> = None | Some(value: T)
}
