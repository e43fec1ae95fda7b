/*
 * The two-player game: one board per player, a phase, whose turn it is and
 * the winner. Every mutator is guarded by the phase; fire alternates turns
 * and detects a win when a sinking shot clears the defender's fleet.
 */
module Games {
  import opened Errors
  import opened Ships
  import opened Boards

  type PlayerId = string

  /** WaitingPlayers is the phase the session shows while a player is away. */
  datatype GamePhase = WaitingPlayers | Setup | InProgress | Finished

  /** What get_view reports to one player. */
  datatype View = View(phase: GamePhase, yourTurn: bool, winner: Option<PlayerId>,
                       yourBoard: array2<CellState>, enemyBoard: array2<CellState>)

  class Game {
    const size: nat
    var boards: map<PlayerId, Board>
    var phase: GamePhase
    var currentTurn: Option<PlayerId>
    var winner: Option<PlayerId>
    /** The game and every object of every board. */
    ghost var Repr: set<object>

    ghost predicate Valid()
      reads this, Repr
    {
      && this in Repr
      && |boards| <= 2
      && (forall p :: p in boards ==>
            boards[p].Repr() <= Repr && this !in boards[p].Repr() && boards[p].size == size)
      && (forall p {:trigger boards[p].Valid()} :: p in boards ==> boards[p].Valid())
      && (forall p {:trigger boards[p].HasStandardFleet()} :: p in boards ==> boards[p].HasStandardFleet())
      && (forall p, q :: p in boards && q in boards && p != q ==> boards[p].Repr() !! boards[q].Repr())
      && (currentTurn.Some? ==> currentTurn.value in boards)
      && (winner.Some? ==> winner.value in boards)
    }

    /** A game in SETUP with no players. */
    constructor (size: nat)
      ensures Valid() && fresh(Repr)
      ensures this.size == size && boards == map[] && phase == Setup
      ensures currentTurn == None && winner == None
    {
      this.size := size;
      boards := map[];
      phase := Setup;
      currentTurn := None;
      winner := None;
      Repr := {this};
    }

    /** Adds a player with a new standard board: only in SETUP, only for a new
        id, and only while fewer than two players are in. */
    method AddPlayer(player: PlayerId) returns (r: Outcome)
      requires Valid()
      modifies this`boards, this`Repr
      ensures Valid() && fresh(Repr - old(Repr))
      ensures r == (if phase != Setup then Fail(WrongPhase)
                    else if player in old(boards) then Fail(PlayerAlreadyExists)
                    else if |old(boards)| >= 2 then Fail(PlayerCountError)
                    else Pass)
      ensures r.Fail? ==> boards == old(boards) && Repr == old(Repr)
      ensures r.Pass? ==> player in boards && boards == old(boards)[player := boards[player]]
                          && fresh(boards[player].Repr())
                          && boards[player].Pristine() && boards[player].HasStandardFleet()
    {
      r := CheckAdd(player);
      if r.Fail? {
        return;
      }
      Enrol(player);
    }

    /** Gives a new player a new, empty standard board. */
    method Enrol(player: PlayerId)
      requires Valid() && player !in boards && |boards| < 2
      modifies this`boards, this`Repr
      ensures Valid() && fresh(Repr - old(Repr))
      ensures player in boards && boards == old(boards)[player := boards[player]]
      ensures fresh(boards[player].Repr())
      ensures boards[player].Pristine() && boards[player].HasStandardFleet()
    {
      var board := new Board(size);
      boards := boards[player := board];
      Repr := Repr + board.Repr();
      AddBoardKeepsValid(this, player);
    }

    /** The guards of AddPlayer, in the order it applies them. */
    method CheckAdd(player: PlayerId) returns (r: Outcome)
      ensures r == (if phase != Setup then Fail(WrongPhase)
                    else if player in boards then Fail(PlayerAlreadyExists)
                    else if |boards| >= 2 then Fail(PlayerCountError)
                    else Pass)
    {
      if phase != Setup {
        return Fail(WrongPhase);
      }
      if player in boards {
        return Fail(PlayerAlreadyExists);
      }
      if |boards| >= 2 {
        return Fail(PlayerCountError);
      }
      return Pass;
    }

    /** Places a ship on the player's own board: only in SETUP, and only for a
        player who has a board; the board then decides. */
    method PlaceShip(player: PlayerId, ship: Ship, start: Coord, horizontal: bool) returns (r: Outcome)
      requires Valid()
      requires player in boards ==> ship in boards[player].ships
      modifies if player in boards then {boards[player], ship} else {}
      ensures Valid()
      ensures phase != Setup ==> r == Fail(WrongPhase)
      ensures phase == Setup && player !in boards ==> r == Fail(UnknownPlayer)
      ensures phase != Setup || player !in boards ==> unchanged(Repr)
      ensures phase == Setup && player in boards ==> boards[player].PlacedShip(ship, start, horizontal, r)
      ensures player in boards ==> boards[player].shotsTaken == old(boards[player].shotsTaken) && ship.hits == old(ship.hits)
    {
      if phase != Setup {
        return Fail(WrongPhase);
      }
      if player !in boards {
        return Fail(UnknownPlayer);
      }
      r := PlaceOnBoard(player, boards[player], ship, start, horizontal);
    }

    /** The placement on the player's own board, once the guards have passed. */
    method PlaceOnBoard(player: PlayerId, board: Board, ship: Ship, start: Coord, horizontal: bool) returns (r: Outcome)
      requires Valid() && player in boards && board == boards[player] && ship in board.ships
      modifies board`occupied, ship`positions
      ensures Valid()
      ensures board.PlacedShip(ship, start, horizontal, r)
    {
      r := board.PlaceShip(ship, start, horizontal);
      BoardChangeKeepsValid(this, player);
    }

    /** Starts the game with `first` to move: only from SETUP, only with two
        players, and only if `first` is one of them. */
    method Start(first: PlayerId) returns (r: Outcome)
      requires Valid()
      modifies this`phase, this`currentTurn
      ensures Valid()
      ensures r == (if old(phase) != Setup then Fail(WrongPhase)
                    else if |boards| != 2 then Fail(PlayerCountError)
                    else if first !in boards then Fail(MissingPlayer)
                    else Pass)
      ensures r.Pass? ==> phase == InProgress && currentTurn == Some(first)
      ensures r.Fail? ==> phase == old(phase) && currentTurn == old(currentTurn)
    {
      if phase != Setup {
        return Fail(WrongPhase);
      }
      if |boards| != 2 {
        return Fail(PlayerCountError);
      }
      if first !in boards {
        return Fail(MissingPlayer);
      }
      phase := InProgress;
      currentTurn := Some(first);
      return Pass;
    }

    /** Some player other than `player`, found by walking the board keys; an
        error when there is none. */
    method GetOpponent(player: PlayerId) returns (r: Result<PlayerId>)
      ensures r.Ok? ==> r.value in boards && r.value != player
      ensures r.Err? ==> r == Err(TurnError) && forall q :: q in boards ==> q == player
    {
      var keys := boards.Keys;
      while keys != {}
        invariant keys <= boards.Keys
        invariant forall q :: q in boards && q !in keys ==> q == player
        decreases keys
      {
        var q :| q in keys;
        if q != player {
          return Ok(q);
        }
        keys := keys - {q};
      }
      return Err(TurnError);
    }

    /** Ends the game when the defender's whole fleet is sunk: the phase is
        FINISHED first, then the winner is the defender's opponent. */
    method CheckWin(defender: PlayerId) returns (r: Outcome)
      requires Valid() && defender in boards
      modifies this`phase, this`winner
      ensures Valid()
      ensures !boards[defender].AllShipsSunk() ==> r == Pass && phase == old(phase) && winner == old(winner)
      ensures boards[defender].AllShipsSunk() ==>
        && phase == Finished
        && (r.Pass? ==> winner.Some? && winner.value in boards && winner.value != defender)
        && (r.Fail? ==> r == Fail(TurnError) && winner == old(winner) && forall q :: q in boards ==> q == defender)
    {
      r := Pass;
      var board := boards[defender];
      if board.AllShipsSunk() {
        phase := Finished;
        var opponent := GetOpponent(defender);
        if opponent.Err? {
          return Fail(TurnError);
        }
        winner := Some(opponent.value);
      }
    }

    /** Fires at the opponent of `player`: only IN_PROGRESS, only on the
        player's turn, and only when there is an opponent. */
    method Fire(player: PlayerId, coord: Coord) returns (r: Result<ShotResult>, ghost opp: PlayerId)
      requires Valid()
      modifies this`phase, this`currentTurn, this`winner, Repr - {this}
      ensures Valid() && boards == old(boards) && Repr == old(Repr)
      ensures old(phase) != InProgress ==> r == Err(WrongPhase)
      ensures old(phase) == InProgress && old(currentTurn) != Some(player) ==> r == Err(TurnError)
      ensures old(phase) == InProgress && old(currentTurn) == Some(player) && boards.Keys <= {player} ==> r == Err(TurnError)
      ensures old(phase) != InProgress || old(currentTurn) != Some(player) || boards.Keys <= {player} ==> Untouched()
      ensures old(phase) == InProgress && old(currentTurn) == Some(player) && !(boards.Keys <= {player}) ==>
                && opp in boards && opp != player && (forall o :: o in boards && o != player ==> o == opp)
                && Shot(player, opp, coord, r)
    {
      opp := player;
      var opponent := CheckFire(player);
      if opponent.Err? {
        return Err(opponent.error), opp;
      }
      opp := opponent.value;
      r := Volley(player, opponent.value, coord);
    }

    /** The guards of Fire, in the order it applies them; on success, the
        player to fire at. */
    method CheckFire(player: PlayerId) returns (r: Result<PlayerId>)
      requires Valid()
      ensures phase != InProgress ==> r == Err(WrongPhase)
      ensures phase == InProgress && currentTurn != Some(player) ==> r == Err(TurnError)
      ensures phase == InProgress && currentTurn == Some(player) && boards.Keys <= {player} ==> r == Err(TurnError)
      ensures r.Err? ==> phase != InProgress || currentTurn != Some(player) || boards.Keys <= {player}
      ensures r.Ok? ==> phase == InProgress && currentTurn == Some(player) && r.value in boards && r.value != player
    {
      if phase != InProgress {
        return Err(WrongPhase);
      }
      if currentTurn != Some(player) {
        return Err(TurnError);
      }
      r := GetOpponent(player);
    }

    /** The shot itself, once the guards have passed: the opponent's board
        takes it; a sinking shot checks for a win; unless the game is over,
        the turn passes to the opponent. */
    method Volley(player: PlayerId, opp: PlayerId, coord: Coord) returns (r: Result<ShotResult>)
      requires Valid() && phase == InProgress && currentTurn == Some(player)
      requires opp in boards && opp != player
      modifies this`phase, this`currentTurn, this`winner, boards[opp].Repr()
      ensures Valid() && boards == old(boards) && Repr == old(Repr)
      ensures forall o :: o in boards && o != player ==> o == opp
      ensures Shot(player, opp, coord, r)
    {
      NoThird(boards.Keys, opp, player);
      r := Strike(opp, coord);
      if r.Err? {
        return;
      }
      Settle(player, opp, r.value.outcome == Sunk);
    }

    /** The board of `opp` takes the shot; no other board changes. */
    method Strike(opp: PlayerId, coord: Coord) returns (r: Result<ShotResult>)
      requires Valid() && opp in boards
      modifies boards[opp].Repr()
      ensures Valid()
      ensures boards[opp].FiredAt(coord, r)
      ensures forall q :: q in boards && q != opp ==> unchanged(boards[q].Repr())
    {
      var board := boards[opp];
      r := board.ReceiveFire(coord);
      BoardChangeKeepsValid(this, opp);
    }

    /** After a shot that `opp`'s board accepted: a sinking shot checks for a
        win, and unless the game is over the turn passes to `opp`. */
    method Settle(player: PlayerId, opp: PlayerId, sunk: bool)
      requires Valid() && phase == InProgress && currentTurn == Some(player)
      requires opp in boards && opp != player && player in boards
      modifies this`phase, this`currentTurn, this`winner
      ensures Valid()
      ensures sunk && boards[opp].AllShipsSunk() ==>
                phase == Finished && winner == Some(player) && currentTurn == old(currentTurn)
      ensures !(sunk && boards[opp].AllShipsSunk()) ==>
                phase == old(phase) && currentTurn == Some(opp) && winner == old(winner)
    {
      if sunk {
        var _ := CheckWin(opp);
        if phase == Finished {
          NoThird(boards.Keys, player, opp);
        }
      }
      if phase != Finished {
        currentTurn := Some(opp);
      }
    }

    /** Nothing observable changed. */
    twostate predicate Untouched()
      reads this, Repr
    {
      && boards == old(boards) && Repr == old(Repr)
      && phase == old(phase) && currentTurn == old(currentTurn) && winner == old(winner)
      && unchanged(Repr - {this})
    }

    /** The effect of `player` firing at `coord` on the board of `opp` with
        outcome `r`. The shooter's own board never changes; a refused shot
        keeps phase, turn and winner; a sinking shot that leaves the
        defender no ship afloat finishes the game with the shooter as winner
        and the turn left with the shooter; any other shot passes the turn. */
    twostate predicate Shot(player: PlayerId, opp: PlayerId, coord: Coord, new r: Result<ShotResult>)
      requires Valid() && opp in boards && player in boards
      reads this, Repr
    {
      && boards == old(boards) && Repr == old(Repr)
      && boards[opp].FiredAt(coord, r)
      && unchanged(boards[player].Repr())
      && (r.Err? ==> phase == old(phase) && currentTurn == old(currentTurn) && winner == old(winner))
      && (r.Ok? && r.value.outcome == Sunk && boards[opp].AllShipsSunk() ==>
            phase == Finished && winner == Some(player) && currentTurn == old(currentTurn))
      && (r.Ok? && !(r.value.outcome == Sunk && boards[opp].AllShipsSunk()) ==>
            phase == old(phase) && currentTurn == Some(opp) && winner == old(winner))
    }

    /** The view of `player`: the phase, whether it is their turn, the winner,
        their own board with ships shown and the opponent's with ships
        hidden. Fails when there is no opponent, then when `player` has no
        board. */
    method GetView(player: PlayerId) returns (r: Result<View>)
      requires Valid()
      ensures r.Err? ==> (r == Err(TurnError) <==> forall q :: q in boards ==> q == player)
      ensures r.Err? ==> r == Err(TurnError) || (r == Err(UnknownPlayer) && player !in boards)
      ensures player in boards && (exists q :: q in boards && q != player) ==> r.Ok?
      ensures r.Ok? ==>
        && player in boards
        && r.value.phase == phase
        && r.value.yourTurn == (currentTurn == Some(player))
        && r.value.winner == winner
        && boards[player].Renders(r.value.yourBoard, true)
        && (exists o :: o in boards && o != player && boards[o].Renders(r.value.enemyBoard, false))
    {
      var opponent := GetOpponent(player);
      if opponent.Err? {
        return Err(TurnError);
      }
      if player !in boards {
        return Err(UnknownPlayer);
      }
      var mine := boards[player].Render(true);
      var theirs := boards[opponent.value].Render(false);
      return Ok(View(phase, currentTurn == Some(player), winner, mine, theirs));
    }
  }

  /** Adding a new valid board for a new player, while there is room, keeps
      the game's invariant. */
  twostate lemma AddBoardKeepsValid(g: Game, new player: PlayerId)
    requires old(g.Valid()) && player !in old(g.boards) && |old(g.boards)| < 2
    requires player in g.boards && g.boards == old(g.boards)[player := g.boards[player]]
    requires fresh(g.boards[player].Repr()) && g.boards[player].Valid() && g.boards[player].size == g.size
    requires g.boards[player].HasStandardFleet()
    requires g.Repr == old(g.Repr) + g.boards[player].Repr()
    requires g.currentTurn == old(g.currentTurn) && g.winner == old(g.winner)
    requires unchanged(old(g.Repr) - {g})
    ensures g.Valid()
  {
  }

  /** A change confined to the board of `player` that leaves it valid keeps
      the game's invariant. */
  twostate lemma BoardChangeKeepsValid(g: Game, new player: PlayerId)
    requires old(g.Valid()) && player in g.boards
    requires g.boards == old(g.boards) && g.Repr == old(g.Repr)
    requires g.currentTurn == old(g.currentTurn) && g.winner == old(g.winner)
    requires g.boards[player].Valid()
    requires forall q :: q in g.boards && q != player ==> unchanged(g.boards[q].Repr())
    ensures g.Valid()
  {
  }
  /** Assigning the phase from outside, as the session does, keeps the
      game's invariant. */
  twostate lemma PhaseChangeKeepsValid(g: Game)
    requires old(g.Valid()) && g.boards == old(g.boards) && g.Repr == old(g.Repr)
    requires g.currentTurn == old(g.currentTurn) && g.winner == old(g.winner)
    requires unchanged(old(g.Repr) - {g})
    ensures g.Valid()
  {
  }

  /** Every player's fleet is the standard one, so a player's fleet is
      complete exactly when 17 cells are occupied, and exactly when every
      ship is placed. */
  lemma FleetComplete(g: Game, p: PlayerId)
    requires g.Valid() && p in g.boards
    ensures g.boards[p].AllShipsPlaced() <==> |g.boards[p].occupied| == 17
    ensures g.boards[p].AllShipsPlaced() <==> forall i :: 0 <= i < |g.boards[p].ships| ==> g.boards[p].ships[i].IsPlaced()
  {
    var b := g.boards[p];
    b.StandardFleetTotal();
    b.AllShipsPlacedIff();
  }

  /** A set of at most two keys holding a and b holds nothing else. */
  lemma NoThird<T>(keys: set<T>, a: T, b: T)
    requires |keys| <= 2 && a in keys && b in keys && a != b
    ensures forall c :: c in keys && c != b ==> c == a
  {
    forall c | c in keys && c != b ensures c == a {
      if c != a {
        SubsetSize({a, b, c}, keys);
      }
    }
  }

  lemma SubsetSize<T>(small: set<T>, large: set<T>)
    requires small <= large
    ensures |small| <= |large|
  {
    assert large == small + (large - small);
  }
}
