/**
 * Failure-carrying values shared by the dice model.
 *
 * The Java library reports every construction failure as an
 * IllegalArgumentException; the model keeps only the reason, so that a
 * caller can tell which validation fired first.
 */
module Outcomes {

  datatype Option<T> = None | Some(value: T)

  /** The reasons an IllegalArgumentException is thrown. */
  datatype Error =
    | TooFewSides   // a die, or every die of a set, must have at least four sides
    | TooFewDice    // a set needs at least two dice
    | IllegalValue  // a starting value outside [1, sides]

  datatype Result<T> = Ok(value: T) | Err(error: Error)
}
