/** Error and result types shared by the event and chain modules. */
module Outcomes {

  /** The two ways a position argument can be rejected by the chain. */
  datatype ChainError =
    | InvalidPosition  // the position check panics: pos > numEvents()
    | OutOfRange       // the check passes but std::vector::at throws: pos == numEvents()

  /** A value, or the error that stopped the operation (the chain is then unchanged). */
  datatype Result<T> = Ok(value: T) | Err(error: ChainError)

  /** The outcome of an operation that returns nothing on success. */
  datatype Status = Done | Fail(error: ChainError)

  datatype Option<T> = None | Some(value: T)
}
