/** Option and Result types shared by the whole model.
    `Result` stands for a Java computation that either returns a value or
    throws one of the runtime exceptions the engine can raise. */
module Wrappers {

  /** A Java reference that may be null. */
  datatype Option<+T> = None | Some(value: T)

  /** The runtime exceptions the engine throws. */
  datatype Exception =
    | NoKingOnBoard        // Player.setKing finds no king among the active pieces
    | NoMoverSet           // the Builder's next mover was never set (null dereference)
    | InvalidMoveExecuted  // InvalidMove.executeMove

  /** A value, or the exception that was thrown instead. */
  datatype Result<+T> = Ok(value: T) | Thrown(reason: Exception) {

    predicate IsFailure() {
      Thrown?
    }

    function PropagateFailure<U>(): Result<U>
      requires Thrown?
    {
      Thrown(reason)
    }

    function Extract(): T
      requires Ok?
    {
      value
    }
  }
}
