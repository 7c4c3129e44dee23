/** Small value types shared by the modules of the model. */
module Common {

  datatype Option<+T> = None | Some(value: T)

  /** What an external party (the contract, the wallet, the file reader) hands
      back to the client: a value, or the message of the error it raised. */
  datatype Reply<+T> = Ok(value: T) | Fail(message: string)

  function Min(a: int, b: int): int
  {
    if a <= b then a else b
  }
}
