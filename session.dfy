/*
 * One game as the server runs it: the roster of at most two players, who has
 * finished placing, who is connected, when the last activity was, and the
 * queue of events to broadcast. Commands are routed by the game's phase and
 * every failure comes back as an error reply.
 */
module Sessions {
  import opened Errors
  import opened Ships
  import opened Boards
  import opened Games
  import opened Commands

  /** Seconds of inactivity after which a session is dropped: five minutes
      while players gather or place ships, fifteen once the game is on. */
  const SetupTimeout: int := 5 * 60
  const InactiveTimeout: int := 15 * 60

  /** A player's open socket, which the model only names. */
  type Connection = nat

  /** What is queued for broadcast; the message text is left out. */
  datatype Event =
    | PhaseChanged
    | ShipsPlaced(player: PlayerId)
    | ShotResultEvent(shooter: PlayerId, coord: Coord, outcome: ShotOutcome)
    | TurnChanged(next: Option<PlayerId>)
    | GameWon(winner: Option<PlayerId>)

  datatype JoinReply = Joined | Reconnected

  /** The reply to a command: the handler's own reply, the reply to a fire
      in play, or an error record. */
  datatype Reply =
    | Handled(reply: HandlerReply)
    | Played(outcome: ShotOutcome, winner: Option<PlayerId>, gameOver: bool)
    | Refused(error: Error)

  /** The line shown to a player before they type. */
  datatype Prompt = WaitForOpponentShips | PlaceYourShips | YourTurn | WaitForOpponent | YouWon | YouLost

  class GameSession {
    const game: Game
    const handler: CommandHandler
    var players: seq<PlayerId>
    var ready: set<PlayerId>
    var connections: map<PlayerId, Connection>
    var connected: set<PlayerId>
    var lastActivity: int
    var events: seq<Event>
    var phaseAtDisconnect: GamePhase

    /** The handler drives this session's game; every board belongs to a
        rostered player, and only players with a board can be ready. */
    ghost predicate Valid()
      reads this`players, this`ready, game, game.Repr
    {
      && handler.game == game
      && game.Valid()
      && this !in game.Repr
      && ready <= game.boards.Keys
      && (forall p :: p in game.boards ==> p in players)
      && |players| <= 2
    }

    /** A session created at time `now`, with a new game in SETUP. */
    constructor (now: int)
      ensures Valid() && fresh(game.Repr)
      ensures players == [] && ready == {} && connections == map[] && connected == {}
      ensures lastActivity == now && events == [] && phaseAtDisconnect == WaitingPlayers
      ensures game.phase == Setup && game.boards == map[]
    {
      var g := new Game(10);
      game := g;
      handler := new CommandHandler(g);
      players := [];
      ready := {};
      connections := map[];
      connected := {};
      lastActivity := now;
      events := [];
      phaseAtDisconnect := WaitingPlayers;
    }

    /** A player joins at time `now`: a rostered id rejoins, a new one
        enters. */
    method Join(player: PlayerId, now: int) returns (r: Result<JoinReply>)
      requires Valid()
      modifies this`players, this`connected, this`lastActivity, this`events, game.Repr
      ensures Valid() && fresh(game.Repr - old(game.Repr))
      ensures player in old(players) ==> Rejoined(player, now, r)
      ensures player !in old(players) && |old(players)| >= 2 ==> r == Err(PlayerCountError) && unchanged(this, game)
      ensures player !in old(players) && |old(players)| < 2 ==> Entered(player, now, r)
    {
      if player in players {
        r := Rejoin(player, now);
      } else if |players| >= 2 {
        r := Err(PlayerCountError);
      } else {
        r := Enter(player, now);
      }
    }

    /** A rostered id that is not connected reconnects, and the game resumes
        the phase it had at the last disconnect; a connected one is refused
        and nothing changes. */
    method Rejoin(player: PlayerId, now: int) returns (r: Result<JoinReply>)
      requires Valid() && player in players
      modifies this`connected, this`lastActivity, game`phase
      ensures Valid() && Rejoined(player, now, r)
    {
      if player !in connected {
        connected := connected + {player};
        game.phase := phaseAtDisconnect;
        PhaseChangeKeepsValid(game);
        Stamp(now);
        return Ok(Reconnected);
      }
      return Err(AlreadyJoined);
    }

    twostate predicate Rejoined(player: PlayerId, now: int, new r: Result<JoinReply>)
      reads this, game, game.Repr
    {
      && players == old(players) && ready == old(ready) && events == old(events)
      && connections == old(connections) && phaseAtDisconnect == old(phaseAtDisconnect)
      && game.boards == old(game.boards) && game.Repr == old(game.Repr)
      && unchanged(old(game.Repr) - {game})
      && game.currentTurn == old(game.currentTurn) && game.winner == old(game.winner)
      && (player !in old(connected) ==>
            && r == Ok(Reconnected) && connected == old(connected) + {player}
            && game.phase == old(phaseAtDisconnect) && lastActivity == now)
      && (player in old(connected) ==>
            && r == Err(AlreadyJoined) && connected == old(connected)
            && game.phase == old(game.phase) && lastActivity == old(lastActivity))
    }

    /** A new id while there is room: activity is stamped, the id is
        rostered and the game gives it a board; a refusal from the game still leaves the id rostered.
        The second player's arrival opens SETUP with a PHASE_CHANGED event. */
    method Enter(player: PlayerId, now: int) returns (r: Result<JoinReply>)
      requires Valid() && player !in players && |players| < 2
      modifies this`players, this`lastActivity, this`events, game`boards, game`Repr, game`phase
      ensures Valid() && fresh(game.Repr - old(game.Repr))
      ensures Entered(player, now, r)
    {
      var added := Admit(player, now);
      if added.Fail? {
        return Err(added.error);
      }
      OpenIfReady();
      return Ok(Joined);
    }

    /** Stamps activity, rosters the id, then asks the game for its board. */
    method Admit(player: PlayerId, now: int) returns (r: Outcome)
      requires Valid() && player !in players && |players| < 2
      modifies this`players, this`lastActivity, game`boards, game`Repr
      ensures Valid() && fresh(game.Repr - old(game.Repr))
      ensures players == old(players) + [player] && lastActivity == now
      ensures game.phase == old(game.phase) && game.currentTurn == old(game.currentTurn) && game.winner == old(game.winner)
      ensures r == (if game.phase != Setup then Fail(WrongPhase) else Pass)
      ensures r.Fail? ==> game.boards == old(game.boards) && game.Repr == old(game.Repr)
      ensures r.Pass? ==> player in game.boards && game.boards == old(game.boards)[player := game.boards[player]]
                          && fresh(game.boards[player])
    {
      Stamp(now);
      players := players + [player];
      RosterBound(game.boards.Keys, old(players));
      r := game.AddPlayer(player);
    }

    /** Once both players are in, SETUP opens with a PHASE_CHANGED event. */
    method OpenIfReady()
      requires Valid()
      modifies this`events, game`phase
      ensures Valid() && game.boards == old(game.boards) && game.Repr == old(game.Repr)
      ensures game.currentTurn == old(game.currentTurn) && game.winner == old(game.winner)
      ensures IsReady() ==> game.phase == Setup && events == old(events) + [PhaseChanged]
      ensures !IsReady() ==> game.phase == old(game.phase) && events == old(events)
    {
      if IsReady() {
        game.phase := Setup;
        PhaseChangeKeepsValid(game);
        events := events + [PhaseChanged];
      }
    }

    twostate predicate Entered(player: PlayerId, now: int, new r: Result<JoinReply>)
      reads this, game, game.Repr
    {
      && ready == old(ready) && connected == old(connected) && connections == old(connections)
      && phaseAtDisconnect == old(phaseAtDisconnect)
      && game.currentTurn == old(game.currentTurn) && game.winner == old(game.winner)
      && players == old(players) + [player] && lastActivity == now
      && (old(game.phase) != Setup ==> r == Err(WrongPhase) && events == old(events) && unchanged(game))
      && (old(game.phase) == Setup ==>
            && r == Ok(Joined) && game.phase == Setup
            && player in game.boards && game.boards == old(game.boards)[player := game.boards[player]]
            && fresh(game.boards[player])
            && events == old(events) + (if |players| == 2 then [PhaseChanged] else []))
    }

    /** Runs `command` for `player` at time `now`, routed by the phase the
        game was in: SETUP takes placements, IN_PROGRESS takes shots, and
        any other phase refuses. Activity is always stamped, and every error
        comes back as a refusal. `choice` stands for the random pick of the
        first player when both fleets are complete. */
    method HandleCommand(player: PlayerId, command: Command, now: int, choice: nat)
      returns (reply: Reply, ghost placement: Result<HandlerReply>, ghost shot: Result<ShotResult>)
      requires Valid()
      modifies this`lastActivity, this`ready, this`events, game.Repr
      ensures Valid() && lastActivity == now && game.boards == old(game.boards) && game.Repr == old(game.Repr)
      ensures old(game.phase) == Setup ==> SetupStep(player, command, choice, reply, placement)
      ensures old(game.phase) == InProgress ==> PlayStep(player, command, reply, shot)
      ensures old(game.phase) != Setup && old(game.phase) != InProgress ==>
                reply == Refused(GameIsFinished) && ready == old(ready) && events == old(events) && unchanged(old(game.Repr))
    {
      placement, shot := Err(InvalidCommand), Err(InvalidCommand);
      var phase := game.phase;
      if phase == Setup {
        reply, placement := HandleSetup(player, command, now, choice);
      } else if phase == InProgress {
        reply, shot := HandlePlay(player, command, now);
      } else {
        Stamp(now);
        reply := Refused(GameIsFinished);
      }
    }

    /** SETUP: only placements are taken. A placement that completes the
        player's fleet queues SHIPS_PLACED and makes the player ready; once
        two players are ready the game starts with the chosen player. */
    method HandleSetup(player: PlayerId, command: Command, now: int, choice: nat)
      returns (reply: Reply, ghost placement: Result<HandlerReply>)
      requires Valid() && game.phase == Setup
      modifies this`lastActivity, this`ready, this`events, game.Repr
      ensures Valid() && lastActivity == now && game.boards == old(game.boards) && game.Repr == old(game.Repr)
      ensures SetupStep(player, command, choice, reply, placement)
    {
      placement := Err(InvalidCommand);
      Stamp(now);
      if !command.PlaceShipCommand? {
        return Refused(MustPlaceShipsFirst), placement;
      }
      var placed := Place(player, command);
      placement := placed;
      if placed.Err? {
        return Refused(placed.error), placement;
      }
      reply := StartIfReady(choice, placed.value);
    }

    /** The placement itself, then the fleet check. */
    method Place(player: PlayerId, command: Command) returns (r: Result<HandlerReply>)
      requires Valid() && command.PlaceShipCommand?
      modifies this`ready, this`events, game.Repr
      ensures Valid() && game.boards == old(game.boards) && game.Repr == old(game.Repr)
      ensures game.phase == old(game.phase) && game.currentTurn == old(game.currentTurn) && game.winner == old(game.winner)
      ensures r.Ok? ==> r.value == ShipPlaced
      ensures r.Err? ==> ready == old(ready) && events == old(events)
      ensures r.Ok? ==>
        && player in game.boards
        && ready == old(ready) + (if game.boards[player].AllShipsPlaced() then {player} else {})
        && events == old(events) + (if game.boards[player].AllShipsPlaced() then [ShipsPlaced(player)] else [])
    {
      ghost var shot;
      r, shot := handler.Execute(player, command);
      if r.Err? {
        return;
      }
      Tally(player);
    }

    /** A player whose fleet is complete becomes ready, with SHIPS_PLACED. */
    method Tally(player: PlayerId)
      requires Valid() && player in game.boards
      modifies this`ready, this`events
      ensures Valid()
      ensures ready == old(ready) + (if game.boards[player].AllShipsPlaced() then {player} else {})
      ensures events == old(events) + (if game.boards[player].AllShipsPlaced() then [ShipsPlaced(player)] else [])
    {
      if game.boards[player].AllShipsPlaced() {
        events := events + [ShipsPlaced(player)];
        ready := ready + {player};
      }
    }

    /** Once two players are ready, starts the game with the player at
        `choice` in the roster; otherwise passes the placement reply on. */
    method StartIfReady(choice: nat, placed: HandlerReply) returns (reply: Reply)
      requires Valid() && game.phase == Setup
      modifies game.Repr
      ensures Valid() && game.boards == old(game.boards) && game.Repr == old(game.Repr)
      ensures unchanged(old(game.Repr) - {game}) && game.winner == old(game.winner)
      ensures |ready| != 2 ==> reply == Handled(placed) && unchanged(game)
      ensures |ready| == 2 ==> |players| > 0 && StartedWith(players[choice % |players|], reply)
    {
      if |ready| == 2 {
        ReadyRostered();
        var first := players[choice % |players|];
        var started;
        ghost var shot;
        started, shot := handler.Execute(first, StartGameCommand);
        if started.Err? {
          return Refused(started.error);
        }
        return Handled(started.value);
      }
      return Handled(placed);
    }

    /** Starting from SETUP with `first` to move: refused unless there are
        two boards and `first` has one. */
    twostate predicate StartedWith(first: PlayerId, reply: Reply)
      reads this, game
    {
      && reply == (if |game.boards| != 2 then Refused(PlayerCountError)
                   else if first !in game.boards then Refused(MissingPlayer)
                   else Handled(GameStarted))
      && (reply.Handled? ==> game.phase == InProgress && game.currentTurn == Some(first))
      && (reply.Refused? ==> game.phase == old(game.phase) && game.currentTurn == old(game.currentTurn))
    }

    /** Two ready players are rostered, so the roster is not empty. */
    lemma ReadyRostered()
      requires Valid() && |ready| == 2
      ensures |players| > 0
    {
      if players == [] {
        assert false;
      }
    }

    /** The effect of a command in SETUP, given the handler's reply
        `placement` to the placement: anything but a placement is refused
        with nothing changed; a refused placement changes nothing else; a
        placement that completes the fleet makes the player ready with a
        SHIPS_PLACED event, and with two players ready the game starts. */
    twostate predicate SetupStep(player: PlayerId, command: Command, choice: nat, reply: Reply, new placement: Result<HandlerReply>)
      requires game.Repr == old(game.Repr)
      reads this, game, game.Repr, game.boards.Values
    {
      && game.winner == old(game.winner)
      && (!command.PlaceShipCommand? ==>
            && reply == Refused(MustPlaceShipsFirst) && ready == old(ready) && events == old(events)
            && unchanged(old(game.Repr)))
      && (command.PlaceShipCommand? ==>
            && (placement.Ok? ==> placement.value == ShipPlaced)
            && (placement.Err? ==>
                  && reply == Refused(placement.error) && ready == old(ready) && events == old(events)
                  && game.phase == old(game.phase) && game.currentTurn == old(game.currentTurn))
            && (placement.Ok? ==>
                  && player in game.boards
                  && ready == old(ready) + (if game.boards[player].AllShipsPlaced() then {player} else {})
                  && events == old(events) + (if game.boards[player].AllShipsPlaced() then [ShipsPlaced(player)] else [])
                  && (|ready| != 2 ==>
                        reply == Handled(ShipPlaced) && game.phase == old(game.phase) && game.currentTurn == old(game.currentTurn))
                  && (|ready| == 2 ==> |players| > 0 && StartedWith(players[choice % |players|], reply))))
    }

    /** IN_PROGRESS: only fire is taken, and only from the player whose turn
        it is. The shot queues SHOT_RESULT and then GAME_WON when it ended
        the game or TURN_CHANGED otherwise. */
    method HandlePlay(player: PlayerId, command: Command, now: int) returns (reply: Reply, ghost shot: Result<ShotResult>)
      requires Valid() && game.phase == InProgress
      modifies this`lastActivity, this`events, game.Repr
      ensures Valid() && lastActivity == now && game.boards == old(game.boards) && game.Repr == old(game.Repr)
      ensures ready == old(ready)
      ensures PlayStep(player, command, reply, shot)
    {
      shot := Err(InvalidCommand);
      Stamp(now);
      if !command.FireCommand? {
        return Refused(InvalidCommand), shot;
      }
      if game.currentTurn != Some(player) {
        return Refused(TurnError), shot;
      }
      reply, shot := Shoot(player, command);
    }

    /** The handler takes the shot; an accepted one is announced. */
    method Shoot(player: PlayerId, command: Command) returns (reply: Reply, ghost shot: Result<ShotResult>)
      requires Valid() && command.FireCommand?
      modifies this`events, game.Repr
      ensures Valid() && game.boards == old(game.boards) && game.Repr == old(game.Repr)
      ensures shot.Err? ==> reply == Refused(shot.error) && events == old(events)
      ensures shot.Ok? ==>
        && reply == Played(shot.value.outcome, game.winner, game.phase == Finished)
        && events == old(events) + [ShotResultEvent(player, command.coord, shot.value.outcome), Aftermath()]
    {
      var fired;
      fired, shot := handler.Execute(player, command);
      if fired.Err? {
        return Refused(fired.error), shot;
      }
      reply := Announce(player, command.coord, fired.value.outcome);
    }

    /** Queues the events of an accepted shot and builds the reply. */
    method Announce(player: PlayerId, coord: Coord, outcome: ShotOutcome) returns (reply: Reply)
      requires Valid()
      modifies this`events
      ensures Valid()
      ensures reply == Played(outcome, game.winner, game.phase == Finished)
      ensures events == old(events) + [ShotResultEvent(player, coord, outcome), Aftermath()]
    {
      events := events + [ShotResultEvent(player, coord, outcome)];
      if game.phase != Finished {
        events := events + [TurnChanged(game.currentTurn)];
      } else {
        events := events + [GameWon(game.winner)];
      }
      return Played(outcome, game.winner, game.phase == Finished);
    }

    /** The event that follows a shot: the win, or the new turn. */
    function Aftermath(): (e: Event)
      reads game
      ensures e.GameWon? <==> game.phase == Finished
    {
      if game.phase == Finished then GameWon(game.winner) else TurnChanged(game.currentTurn)
    }

    /** The effect of a command in IN_PROGRESS, given the game's shot `shot`:
        anything but fire, and fire out of turn, are refused with nothing
        changed; otherwise the game takes the shot, a refused shot queues
        nothing, and an accepted one queues its events and reports whether
        the game is over. */
    twostate predicate PlayStep(player: PlayerId, command: Command, reply: Reply, new shot: Result<ShotResult>)
      requires game.Repr == old(game.Repr)
      reads this, game, game.Repr, game.boards.Values
    {
      && (!command.FireCommand? ==>
            reply == Refused(InvalidCommand) && events == old(events) && unchanged(old(game.Repr)))
      && (command.FireCommand? && old(game.currentTurn) != Some(player) ==>
            reply == Refused(TurnError) && events == old(events) && unchanged(old(game.Repr)))
      && (command.FireCommand? && old(game.currentTurn) == Some(player) ==>
            && (shot.Err? ==> reply == Refused(shot.error) && events == old(events))
            && (shot.Ok? ==>
                  && reply == Played(shot.value.outcome, game.winner, game.phase == Finished)
                  && events == old(events) + [ShotResultEvent(player, command.coord, shot.value.outcome), Aftermath()]))
    }

    /** A player's socket closed: the player is no longer connected, then
        their connection entry is deleted (an id with no entry fails there),
        and the game waits in WAITING_PLAYERS, remembering the phase it left
        for the reconnection. */
    method Disconnect(player: PlayerId) returns (r: Outcome)
      requires Valid()
      modifies this`connected, this`connections, this`phaseAtDisconnect, game`phase
      ensures Valid()
      ensures connected == old(connected) - {player}
      ensures player !in old(connections) ==>
        && r == Fail(UnknownPlayer) && connections == old(connections)
        && phaseAtDisconnect == old(phaseAtDisconnect) && game.phase == old(game.phase)
      ensures player in old(connections) ==>
        && r == Pass && connections == old(connections) - {player}
        && phaseAtDisconnect == old(game.phase) && game.phase == WaitingPlayers
    {
      connected := connected - {player};
      if player !in connections {
        return Fail(UnknownPlayer);
      }
      connections := connections - {player};
      phaseAtDisconnect := game.phase;
      game.phase := WaitingPlayers;
      PhaseChangeKeepsValid(game);
      return Pass;
    }

    /** Disconnect as evidently intended: a second disconnection while the
        game already waits keeps the phase saved by the first, so that the
        game can still resume it. */
    method DisconnectKeepingPhase(player: PlayerId) returns (r: Outcome)
      requires Valid()
      modifies this`connected, this`connections, this`phaseAtDisconnect, game`phase
      ensures Valid()
      ensures connected == old(connected) - {player}
      ensures player !in old(connections) ==>
        && r == Fail(UnknownPlayer) && connections == old(connections)
        && phaseAtDisconnect == old(phaseAtDisconnect) && game.phase == old(game.phase)
      ensures player in old(connections) ==>
        && r == Pass && connections == old(connections) - {player}
        && phaseAtDisconnect == (if old(game.phase) == WaitingPlayers then old(phaseAtDisconnect) else old(game.phase))
        && game.phase == WaitingPlayers
    {
      connected := connected - {player};
      if player !in connections {
        return Fail(UnknownPlayer);
      }
      connections := connections - {player};
      if game.phase != WaitingPlayers {
        phaseAtDisconnect := game.phase;
      }
      game.phase := WaitingPlayers;
      PhaseChangeKeepsValid(game);
      return Pass;
    }

    /** As written, when both players drop out one after the other and both
        come back, the game is left waiting: the second disconnection saved
        WAITING_PLAYERS over the phase the game was in. */
    method BothAwayAsWritten(p: PlayerId, q: PlayerId, now: int) returns (back: Result<JoinReply>)
      requires Valid() && p != q && p in players && q in players && p in connections && q in connections
      requires game.phase == InProgress
      modifies this`connected, this`connections, this`phaseAtDisconnect, this`lastActivity, game`phase
      ensures back == Ok(Reconnected) && p in connected && q in connected
      ensures game.phase == WaitingPlayers
    {
      var _ := Disconnect(p);
      var _ := Disconnect(q);
      var _ := Rejoin(p, now);
      back := Rejoin(q, now);
    }

    /** With the corrected disconnection, both players coming back resume
        the phase the game was in before either left. */
    method BothAwayCorrected(p: PlayerId, q: PlayerId, now: int) returns (back: Result<JoinReply>)
      requires Valid() && p != q && p in players && q in players && p in connections && q in connections
      requires game.phase != WaitingPlayers
      modifies this`connected, this`connections, this`phaseAtDisconnect, this`lastActivity, game`phase
      ensures back == Ok(Reconnected) && p in connected && q in connected
      ensures game.phase == old(game.phase)
    {
      var _ := DisconnectKeepingPhase(p);
      var _ := DisconnectKeepingPhase(q);
      var _ := Rejoin(p, now);
      back := Rejoin(q, now);
    }

    /** A disconnection followed by the same player's return puts the game
        back in the phase it was in, with nothing else of the game changed. */
    method DisconnectThenRejoin(player: PlayerId, now: int) returns (left: Outcome, back: Result<JoinReply>)
      requires Valid() && player in players && player in connections
      modifies this`connected, this`connections, this`phaseAtDisconnect, this`lastActivity, game`phase
      ensures Valid() && left == Pass && back == Ok(Reconnected)
      ensures game.phase == old(game.phase) && player in connected
      ensures connections == old(connections) - {player}
    {
      left := Disconnect(player);
      back := Rejoin(player, now);
    }

    /** The line `player` is shown, chosen by phase: in SETUP whether their
        fleet is complete (a player without a board fails), in IN_PROGRESS
        whether it is their turn, in FINISHED whether they won. While players
        gather there is no prompt. */
    function PromptFor(player: PlayerId): (r: Result<Option<Prompt>>)
      reads this, game, game.boards.Values
      ensures r.Err? <==> game.phase == Setup && player !in game.boards
      ensures r.Err? ==> r.error == UnknownPlayer
      ensures r == Ok(None) <==> game.phase == WaitingPlayers
      ensures r == Ok(Some(PlaceYourShips)) <==>
                game.phase == Setup && player in game.boards && !game.boards[player].AllShipsPlaced()
      ensures r == Ok(Some(WaitForOpponentShips)) <==>
                game.phase == Setup && player in game.boards && game.boards[player].AllShipsPlaced()
      ensures r == Ok(Some(YourTurn)) <==> game.phase == InProgress && game.currentTurn == Some(player)
      ensures r == Ok(Some(WaitForOpponent)) <==> game.phase == InProgress && game.currentTurn != Some(player)
      ensures r == Ok(Some(YouWon)) <==> game.phase == Finished && game.winner == Some(player)
      ensures r == Ok(Some(YouLost)) <==> game.phase == Finished && game.winner != Some(player)
    {
      match game.phase
      case Setup =>
        if player !in game.boards then Err(UnknownPlayer)
        else if game.boards[player].AllShipsPlaced() then Ok(Some(WaitForOpponentShips))
        else Ok(Some(PlaceYourShips))
      case InProgress =>
        if game.currentTurn == Some(player) then Ok(Some(YourTurn)) else Ok(Some(WaitForOpponent))
      case Finished =>
        if game.winner == Some(player) then Ok(Some(YouWon)) else Ok(Some(YouLost))
      case WaitingPlayers => Ok(None)
    }

    /** Records activity at time `now`. */
    method Stamp(now: int)
      modifies this`lastActivity
      ensures lastActivity == now
    {
      lastActivity := now;
    }

    /** Both players are in. */
    predicate IsReady()
      reads this
      ensures |players| < 2 ==> !IsReady()
    {
      |players| == 2
    }

    /** Whether the session has been idle too long at time `now`. */
    predicate IsExpired(now: int)
      reads this, game
      ensures IsExpired(now) ==> now - lastActivity > SetupTimeout
      ensures now - lastActivity > InactiveTimeout ==> IsExpired(now)
      ensures now - lastActivity <= SetupTimeout ==> !IsExpired(now)
    {
      if game.phase == WaitingPlayers || game.phase == Setup then now - lastActivity > SetupTimeout
      else now - lastActivity > InactiveTimeout
    }
  }

  /** A session that has expired stays expired as time goes on, as long as
      nothing stamps it and the phase stays put. */
  lemma ExpiryLasts(s: GameSession, now: int, later: int)
    requires s.IsExpired(now) && now <= later
    ensures s.IsExpired(later)
  {
  }

  /** Games that have not started are reaped sooner: with the same last
      activity, a session that has expired while the game is under way or
      over would also have expired while players gather or place ships. */
  lemma SetupReapedSooner(running: GameSession, waiting: GameSession, now: int)
    requires running.game.phase in {InProgress, Finished} && waiting.game.phase in {WaitingPlayers, Setup}
    requires running.lastActivity == waiting.lastActivity
    ensures running.IsExpired(now) ==> waiting.IsExpired(now)
  {
  }

  /** A session is ready exactly when its roster is full, and until then
      the game has fewer than two boards, so it cannot start. */
  lemma ReadyIsFull(s: GameSession)
    requires s.Valid()
    ensures s.IsReady() <==> |s.players| >= 2
    ensures !s.IsReady() ==> |s.game.boards| < 2
  {
    if !s.IsReady() {
      RosterBound(s.game.boards.Keys, s.players);
    }
  }

  /** With fewer than two rostered ids and every board rostered, there is
      room for a board, and none for the ids still outside the roster. */
  lemma RosterBound(keys: set<PlayerId>, roster: seq<PlayerId>)
    requires |roster| < 2 && forall p :: p in keys ==> p in roster
    ensures |keys| < 2
  {
    if roster != [] {
      SubsetSize(keys, {roster[0]});
    } else {
      assert keys == {};
    }
  }
}
