/** Outcomes shared by every stage of the evaluator: the optional value that a
    JavaScript `undefined` or `null` stands for, and the errors a call can throw. */
module Results {

  datatype Option<+T> = None | Some(value: T)

  /** The three ways `PokerEvaluator.evalHand` can throw. */
  datatype Error =
    | BadLength(count: nat)   // "Hand must be 3, 5, 6, or 7 cards, but got <count>"
    | InvalidCard             // "Please supply input as a valid string[] of cards"
    | OffsetOutOfRange        // the RangeError of Buffer.readUInt32LE

  datatype Result<+T> = Ok(value: T) | Err(error: Error)
}
