/*
 * Error kinds raised across the engine, the command layer and the registry,
 * and the Result/Outcome wrappers that replace Python exceptions.
 */
module Errors {

  /** Every exception kind raised by the modelled code, plus the error
      records that the session returns instead of raising. */
  datatype Error =
    // placement (board.py, ships.py)
    | ShipAlreadyPlaced
    | InvalidPlacement
    | Overlapping
    | InvalidPositions
    // targeting (board.py)
    | OutsideShot
    | AlreadyShot
    // roster and phase (game.py, game_session.py)
    | WrongPhase
    | TurnError
    | PlayerAlreadyExists
    | PlayerCountError
    | MissingPlayer
    // a dictionary lookup of a player id that has no entry (Python KeyError)
    | UnknownPlayer
    // command surface (command_handler.py, command_parser.py)
    | InvalidShipName
    | EmptyCommand
    | PlaceUsage
    | FireUsage
    | UnknownCommand(word: string)
    | NotAnInteger(token: string)
    // records returned (not raised) by the session
    | AlreadyJoined
    | MustPlaceShipsFirst
    | InvalidCommand
    | GameIsFinished
    // registry (game_registry.py)
    | InvalidCode
    | TooManyGames

  datatype Option<+T> = None | Some(value: T)

  /** A value or the error that was raised instead. */
  datatype Result<+T> = Ok(value: T) | Err(error: Error)

  /** A step that returns nothing or raises. */
  datatype Outcome = Pass | Fail(error: Error)
}
