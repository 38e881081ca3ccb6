/** The outcome type used where the original throws or returns an empty optional. */
module Results {

  datatype Option<+T> = None | Some(value: T)

  /** The ways in which reading bytes can fail. Each constructor stands for one `throw`. */
  datatype Error =
    | TruncatedFrame        // a field runs past the end of the frame
    | UnexpectedSize        // a fixed-size message of the wrong length
    | InvalidMessageType    // unknown tag in the header
    | TruncatedRecord       // a log record shorter than its length prefix
    | TimeWentBack          // a log record older than its predecessor
    | OversizedFrame        // a frame longer than the receiver accepts
    | CellOffMap            // a position that is not on the bot's map
    | UnknownClient         // no snake with that id
    | NotAConfiguration     // a log whose first record is something else

  datatype Result<+T> = Ok(value: T) | Err(error: Error) {
    predicate IsFailure() {
      Err?
    }

    function PropagateFailure<U>(): Result<U>
      requires Err?
    {
      Err(error)
    }

    function Extract(): T
      requires Ok?
    {
      value
    }
  }
}
