/** Failure-carrying values used throughout the model of the emotes bot. */
module Wrappers {

  /** A value that may be absent; stands for Python's `None` where the bot uses it. */
  datatype Option<+T> = None | Some(value: T)

  /** The outcome of an operation that may raise. */
  datatype Result<+T, +E> = Ok(value: T) | Err(error: E)

  /** The Python exceptions the bot's own code can raise on malformed input. */
  datatype Exception =
    | TypeError   // `regex.search(None)`, or `None + " ."`
    | IndexError  // indexing a token list that is too short
    | ValueError  // unpacking fewer than two command arguments
}
