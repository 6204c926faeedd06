/** Errors and results of the bot (src/error.rs and the `Result` returns throughout).

    The source reports failures through a string-carrying error (`MyError`) or a boxed
    collaborator error whose only observable part is its displayed message.  A Rust panic
    (an `unwrap` on a missing value, a u64 subtraction that underflows in a debug build)
    aborts the handler; the model makes it an explicit error case so that every operation
    stays total. */
module Errors {

  datatype Option<+T> = None | Some(value: T)

  datatype Error =
    | Message(text: string)   // `MyError` or a collaborator error, as displayed by `{}`
    | Panic(reason: string)   // the handler aborts; nothing is sent

  datatype Result<+T> = Ok(value: T) | Err(error: Error)

  /** The text an error shows when formatted. */
  function ErrorText(e: Error): string
  {
    match e
    case Message(text) => text
    case Panic(reason) => reason
  }

  /** A 64-bit unsigned integer of the source (`u64`, `usize` on the target platform). */
  const U64_LIMIT: nat := 0x1_0000_0000_0000_0000
  type U64 = n: nat | n < U64_LIMIT
}
