/*
 * The closed command union and the handler that turns each command into a
 * call on the shared game. The handler has no state of its own.
 */
module Commands {
  import opened Errors
  import opened Ships
  import opened Boards
  import opened Games

  /** place <name> <row> <col> <h|v>, fire <row> <col>, start. */
  datatype Command =
    | PlaceShipCommand(shipName: string, start: Coord, horizontal: bool)
    | FireCommand(coord: Coord)
    | StartGameCommand

  /** The successful replies of the handler: ship_placed, shot (with the
      outcome) and game_started. */
  datatype HandlerReply = ShipPlaced | ShotFired(outcome: ShotOutcome) | GameStarted

  class CommandHandler {
    const game: Game

    constructor (game: Game)
      ensures this.game == game
    {
      this.game := game;
    }

    /** Runs `command` for `player`: a placement looks the ship up by name
        on the player's own board before the game sees it; fire and start go
        straight to the game, start with `player` as the first to move.
        Game errors are passed on unchanged. The union is closed, so there is
        no unknown command. */
    method Execute(player: PlayerId, command: Command) returns (r: Result<HandlerReply>, ghost shot: Result<ShotResult>)
      requires game.Valid()
      modifies game.Repr
      ensures game.Valid() && game.boards == old(game.boards) && game.Repr == old(game.Repr)
      ensures command.PlaceShipCommand? ==> Placed(player, command.shipName, command.start, command.horizontal, r)
      ensures command.FireCommand? ==> Fired(player, command.coord, r, shot)
      ensures command.StartGameCommand? ==> Started(player, r)
    {
      shot := Err(InvalidCommand);
      match command
      case PlaceShipCommand(name, start, horizontal) =>
        r := PlaceShip(player, name, start, horizontal);
      case FireCommand(coord) =>
        r, shot := Fire(player, coord);
      case StartGameCommand =>
        r := Start(player);
    }

    /** The place branch: the player's board, then the ship by name, then
        the game. */
    method PlaceShip(player: PlayerId, name: string, start: Coord, horizontal: bool) returns (r: Result<HandlerReply>)
      requires game.Valid()
      modifies game.Repr
      ensures game.Valid() && game.boards == old(game.boards) && game.Repr == old(game.Repr)
      ensures Placed(player, name, start, horizontal, r)
    {
      if player !in game.boards {
        return Err(UnknownPlayer);
      }
      var ship := game.boards[player].GetShipByName(name);
      if ship.None? {
        return Err(InvalidShipName);
      }
      var outcome := game.PlaceShip(player, ship.value, start, horizontal);
      if outcome.Fail? {
        return Err(outcome.error);
      }
      return Ok(ShipPlaced);
    }

    /** The fire branch: the game's shot, reported by its outcome. */
    method Fire(player: PlayerId, coord: Coord) returns (r: Result<HandlerReply>, ghost shot: Result<ShotResult>)
      requires game.Valid()
      modifies game.Repr
      ensures game.Valid() && game.boards == old(game.boards) && game.Repr == old(game.Repr)
      ensures Fired(player, coord, r, shot)
    {
      var fired;
      ghost var opp;
      fired, opp := game.Fire(player, coord);
      shot := fired;
      if fired.Err? {
        return Err(fired.error), shot;
      }
      return Ok(ShotFired(fired.value.outcome)), shot;
    }

    /** The start branch: the acting player moves first. */
    method Start(player: PlayerId) returns (r: Result<HandlerReply>)
      requires game.Valid()
      modifies game.Repr
      ensures game.Valid() && game.boards == old(game.boards) && game.Repr == old(game.Repr)
      ensures Started(player, r)
    {
      var started := game.Start(player);
      if started.Fail? {
        return Err(started.error);
      }
      return Ok(GameStarted);
    }

    /** The effect of placing the ship called `name`: an unknown player or
        name changes nothing; otherwise the game's placement runs on the
        first ship of that name on the player's own board, and only that
        board may change. Phase, turn and winner never change. */
    twostate predicate Placed(player: PlayerId, name: string, start: Coord, horizontal: bool, new r: Result<HandlerReply>)
      requires game.Valid() && game.boards == old(game.boards) && game.Repr == old(game.Repr)
      reads game, game.Repr
    {
      && game.phase == old(game.phase) && game.currentTurn == old(game.currentTurn) && game.winner == old(game.winner)
      && PlacedOnBoard(player, name, start, horizontal, r)
    }

    /** The part of Placed that concerns the boards. */
    twostate predicate PlacedOnBoard(player: PlayerId, name: string, start: Coord, horizontal: bool, new r: Result<HandlerReply>)
      requires game.Valid() && game.boards == old(game.boards) && game.Repr == old(game.Repr)
      reads game, game.Repr
    {
      && (r.Ok? ==> r.value == ShipPlaced)
      && (player !in game.boards ==> r == Err(UnknownPlayer) && unchanged(old(game.Repr)))
      && (player in game.boards && game.boards[player].GetShipByName(name).None? ==>
            r == Err(InvalidShipName) && unchanged(old(game.Repr)))
      && (player in game.boards && game.boards[player].GetShipByName(name).Some? ==>
            && (old(game.phase) != Setup ==> r == Err(WrongPhase) && unchanged(old(game.Repr)))
            && (old(game.phase) == Setup ==>
                  && game.boards[player].PlacedShip(game.boards[player].GetShipByName(name).value, start, horizontal, AsOutcome(r))
                  && forall q :: q in game.boards && q != player ==> unchanged(game.boards[q].Repr())))
    }

    /** The effect of a fire command: the reply carries the outcome of the
        game's shot `shot`, or its error, and the shot is the game's. */
    twostate predicate Fired(player: PlayerId, coord: Coord, new r: Result<HandlerReply>, new shot: Result<ShotResult>)
      requires game.Valid() && game.boards == old(game.boards) && game.Repr == old(game.Repr)
      reads game, game.Repr
    {
      && (shot.Ok? ==> r == Ok(ShotFired(shot.value.outcome)))
      && (shot.Err? ==> r == Err(shot.error))
      && (old(game.phase) != InProgress ==> r == Err(WrongPhase))
      && (old(game.phase) == InProgress && old(game.currentTurn) != Some(player) ==> r == Err(TurnError))
      && (old(game.phase) == InProgress && old(game.currentTurn) == Some(player) && game.boards.Keys <= {player} ==>
            r == Err(TurnError))
      && (old(game.phase) != InProgress || old(game.currentTurn) != Some(player) || game.boards.Keys <= {player} ==>
            unchanged(old(game.Repr)))
      && (forall o :: o in game.boards && o != player && player in game.boards && old(game.phase) == InProgress && old(game.currentTurn) == Some(player) ==>
            game.Shot(player, o, coord, shot))
    }

    /** The effect of a start command: the game's start with `player` first. */
    twostate predicate Started(player: PlayerId, new r: Result<HandlerReply>)
      requires game.Repr == old(game.Repr)
      reads game, game.Repr
    {
      && unchanged(old(game.Repr) - {game}) && game.boards == old(game.boards) && game.winner == old(game.winner)
      && r == (if old(game.phase) != Setup then Err(WrongPhase)
               else if |game.boards| != 2 then Err(PlayerCountError)
               else if player !in game.boards then Err(MissingPlayer)
               else Ok(GameStarted))
      && (r.Ok? ==> game.phase == InProgress && game.currentTurn == Some(player))
      && (r.Err? ==> game.phase == old(game.phase) && game.currentTurn == old(game.currentTurn))
    }
  }

  /** A handler reply seen as a plain success or failure. */
  function AsOutcome(r: Result<HandlerReply>): (o: Outcome)
    ensures o.Pass? <==> r.Ok?
    ensures r.Err? ==> o == Fail(r.error)
  {
    if r.Ok? then Pass else Fail(r.error)
  }
}
