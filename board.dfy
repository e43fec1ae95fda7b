/*
 * The per-player grid: a fixed fleet, the set of occupied cells and the set
 * of cells fired at. Placement is checked before anything changes; incoming
 * fire resolves to a miss, a hit or a sinking.
 */
module Boards {
  import opened Errors
  import opened Ships
  import Text

  datatype CellState = EmptyCell | ShipCell | HitCell | MissCell

  datatype ShotOutcome = Hit | Miss | Sunk

  /** The outcome of a shot and, on a hit or a sinking, the ship struck. */
  datatype ShotResult = ShotResult(outcome: ShotOutcome, ship: Option<Ship>)

  predicate InGrid(c: Coord, size: int)
  {
    0 <= c.0 < size && 0 <= c.1 < size
  }

  /** The i-th cell of a run that starts at `start`. */
  function RunCell(start: Coord, i: int, horizontal: bool): Coord
  {
    if horizontal then (start.0, start.1 + i) else (start.0 + i, start.1)
  }

  /** A run always holds its start cell, so a size below one still gives one cell. */
  function RunLength(size: int): nat
  {
    if size < 1 then 1 else size
  }

  /** The cells a ship of `size` covers from `start` along one axis. */
  ghost function Segment(start: Coord, size: int, horizontal: bool): set<Coord>
  {
    set i | 0 <= i < RunLength(size) :: RunCell(start, i, horizontal)
  }

  /** Walks from `start` one cell at a time along the requested axis,
      collecting the cells a ship of `size` would cover. */
  method ComputePositions(start: Coord, size: int, horizontal: bool) returns (positions: set<Coord>)
    ensures positions == Segment(start, size, horizontal)
    ensures |positions| == RunLength(size)
    ensures forall i :: 0 <= i < RunLength(size) ==> RunCell(start, i, horizontal) in positions
  {
    var row, col := start.0, start.1;
    positions := {start};
    var k := 0;
    while k < size - 1
      invariant 0 <= k < RunLength(size)
      invariant (row, col) == RunCell(start, k, horizontal)
      invariant forall c :: c in positions <==> exists j :: 0 <= j <= k && c == RunCell(start, j, horizontal)
      invariant |positions| == k + 1
    {
      if horizontal {
        col := col + 1;
      } else {
        row := row + 1;
      }
      assert forall j :: 0 <= j <= k ==> RunCell(start, j, horizontal) != (row, col);
      positions := positions + {(row, col)};
      k := k + 1;
    }
    assert forall i :: 0 <= i < RunLength(size) ==> RunCell(start, i, horizontal) in positions;
  }

  /** The board's own checks on placing a ship on `cells` of a grid of
      `gridSize` whose `occupied` cells are taken: an already placed ship,
      then a cell off the grid, then a taken cell are refused, in that order. */
  ghost function BoardVerdict(placed: bool, cells: set<Coord>, gridSize: int, occupied: set<Coord>): Outcome
  {
    if placed then Fail(ShipAlreadyPlaced)
    else if exists c :: c in cells && !InGrid(c, gridSize) then Fail(InvalidPlacement)
    else if cells * occupied != {} then Fail(Overlapping)
    else Pass
  }

  /** The board's checks, then the ship's own refusal of a run whose length
      is not its size. */
  ghost function PlacementVerdict(placed: bool, cells: set<Coord>, gridSize: int,
                                  occupied: set<Coord>, shipSize: int): Outcome
  {
    if BoardVerdict(placed, cells, gridSize, occupied).Fail? then BoardVerdict(placed, cells, gridSize, occupied)
    else if |cells| != shipSize then Fail(InvalidPositions)
    else Pass
  }

  class Board {
    const size: nat
    const ships: seq<Ship>
    var occupied: set<Coord>
    var shotsTaken: set<Coord>

    /** The board and the ships of its fleet. */
    ghost function Repr(): set<object>
    {
      {this} + set i | 0 <= i < |ships| :: ships[i] as object
    }

    /** The cells covered by some ship of the fleet. */
    ghost function Covered(): set<Coord>
      reads Repr()
    {
      set i, c | 0 <= i < |ships| && c in ships[i].positions :: c
    }

    ghost predicate Valid()
      reads Repr()
    {
      // the fleet holds distinct ship objects
      && (forall i, j :: 0 <= i < j < |ships| ==> ships[i] != ships[j])
      // a ship is either unplaced or covers exactly its size
      && (forall i :: 0 <= i < |ships| ==> ships[i].positions == {} || |ships[i].positions| == ships[i].size)
      // hits lie on the ship and were fired at
      && (forall i :: 0 <= i < |ships| ==> ships[i].hits <= ships[i].positions && ships[i].hits <= shotsTaken)
      // occupied is the union of the ship positions
      && occupied == Covered()
      // ship positions are pairwise disjoint
      && (forall i, j :: 0 <= i < j < |ships| ==> ships[i].positions !! ships[j].positions)
      // everything lies inside the grid
      && (forall c :: c in occupied ==> InGrid(c, size))
      && (forall c :: c in shotsTaken ==> InGrid(c, size))
    }

    /** A board of `size` with the standard fleet. */
    constructor (size: nat)
      ensures Valid() && fresh(Repr())
      ensures this.size == size && Pristine() && HasStandardFleet()
    {
      this.size := size;
      var fleet := StandardShips();
      ships := fleet;
      occupied := {};
      shotsTaken := {};
    }

    /** The fleet is the standard one: its names and sizes, in order. */
    predicate HasStandardFleet()
    {
      && |ships| == |StandardFleet|
      && forall i :: 0 <= i < |ships| ==> ships[i].name == StandardFleet[i].0 && ships[i].size == StandardFleet[i].1
    }

    /** Nothing has happened on the board yet: no ship placed or hit, no
        cell occupied, no shot taken. */
    ghost predicate Pristine()
      reads Repr()
    {
      && occupied == {} && shotsTaken == {}
      && forall i :: 0 <= i < |ships| ==> ships[i].positions == {} && ships[i].hits == {}
    }

    /** A board of `size` with a caller-chosen fleet of unplaced ships. */
    constructor WithFleet(size: nat, fleet: seq<Ship>)
      requires forall i, j :: 0 <= i < j < |fleet| ==> fleet[i] != fleet[j]
      requires forall i :: 0 <= i < |fleet| ==> fleet[i].positions == {} && fleet[i].hits == {}
      ensures Valid() && fresh(Repr() - (set i | 0 <= i < |fleet| :: fleet[i] as object))
      ensures this.size == size && ships == fleet && occupied == {} && shotsTaken == {}
    {
      this.size := size;
      ships := fleet;
      occupied := {};
      shotsTaken := {};
    }

    /** Places one ship of this fleet: refuses an already placed ship, then a
        run leaving the grid, then a run crossing an occupied cell, then a
        run whose length is not the ship's size; only then is anything changed. */
    method PlaceShip(ship: Ship, start: Coord, horizontal: bool) returns (r: Outcome)
      requires Valid() && ship in ships
      modifies this`occupied, ship`positions
      ensures Valid()
      ensures PlacedShip(ship, start, horizontal, r)
    {
      var positions;
      r, positions := CheckPlacement(ship, start, horizontal);
      if r.Fail? {
        return;
      }
      ghost var k :| 0 <= k < |ships| && ships[k] == ship;
      r := Occupy(ship, start, horizontal, positions);
      if r.Fail? {
        NoPlacementKeepsValid(this);
      } else {
        PlacementKeepsValid(this, k);
      }
    }

    /** The placement once the board's checks have passed: the ship refuses
        a run whose length is not its size, otherwise its cells are occupied. */
    method Occupy(ship: Ship, start: Coord, horizontal: bool, cells: set<Coord>) returns (r: Outcome)
      requires ship in ships && !ship.IsPlaced()
      requires cells == Segment(start, ship.size, horizontal)
      requires BoardVerdict(false, cells, size, occupied) == Pass
      modifies this`occupied, ship`positions
      ensures PlacedShip(ship, start, horizontal, r)
    {
      r := ship.Place(cells);
      if r.Pass? {
        occupied := occupied + cells;
      }
    }

    /** The checks PlaceShip makes before anything changes, and the cells
        the ship would cover. */
    method CheckPlacement(ship: Ship, start: Coord, horizontal: bool) returns (r: Outcome, positions: set<Coord>)
      ensures !ship.IsPlaced() ==> positions == Segment(start, ship.size, horizontal)
      ensures r == BoardVerdict(ship.IsPlaced(), Segment(start, ship.size, horizontal), size, occupied)
    {
      positions := {};
      if ship.IsPlaced() {
        return Fail(ShipAlreadyPlaced), positions;
      }
      positions := ComputePositions(start, ship.size, horizontal);
      if exists c :: c in positions && !InGrid(c, size) {
        return Fail(InvalidPlacement), positions;
      }
      if positions * occupied != {} {
        return Fail(Overlapping), positions;
      }
      return Pass, positions;
    }

    /** The effect of PlaceShip(ship, start, horizontal) returning `r`: only
        the occupied cells and the placed ship's cells may change; the shots,
        every ship's hits and the other ships' cells stay. */
    twostate predicate PlacedShip(ship: Ship, start: Coord, horizontal: bool, r: Outcome)
      reads this, ship, Repr()
    {
      && shotsTaken == old(shotsTaken)
      && (forall i :: 0 <= i < |ships| ==> ships[i].hits == old(ships[i].hits))
      && (forall i :: 0 <= i < |ships| && ships[i] != ship ==> ships[i].positions == old(ships[i].positions))
      && r == PlacementVerdict(old(ship.IsPlaced()), Segment(start, ship.size, horizontal), size, old(occupied), ship.size)
      && (r.Pass? ==> ship.positions == Segment(start, ship.size, horizontal)
                      && occupied == old(occupied) + Segment(start, ship.size, horizontal))
      && (r.Fail? ==> ship.positions == old(ship.positions) && occupied == old(occupied))
    }

    /** Resolves a shot at `coord`: refuses a cell outside the grid, then a
        cell already fired at; otherwise records the shot and reports a miss
        on an empty cell, or registers the hit on the owning ship. */
    method ReceiveFire(coord: Coord) returns (r: Result<ShotResult>)
      requires Valid()
      modifies this`shotsTaken, ships
      ensures Valid()
      ensures FiredAt(coord, r)
    {
      if !InGrid(coord, size) {
        return Err(OutsideShot);
      }
      if coord in shotsTaken {
        return Err(AlreadyShot);
      }
      r := TakeShot(coord);
    }

    /** Records a shot at a fresh cell inside the grid: a miss on an empty
        cell, otherwise a hit on the ship that covers it. */
    method TakeShot(coord: Coord) returns (r: Result<ShotResult>)
      requires Valid() && InGrid(coord, size) && coord !in shotsTaken
      modifies this`shotsTaken, ships
      ensures Valid()
      ensures FiredAt(coord, r)
    {
      shotsTaken := shotsTaken + {coord};
      if coord !in occupied {
        r := Ok(ShotResult(Miss, None));
        MissFiredAt(this, coord, r);
        return;
      }
      var k := FindOwner(coord);
      var ship := ships[k];
      var _ := ship.RegisterHit(coord);
      HitKeepsValid(this, k, coord);
      if ship.IsSunk() {
        r := Ok(ShotResult(Sunk, Some(ship)));
      } else {
        r := Ok(ShotResult(Hit, Some(ship)));
      }
      HitFiredAt(this, k, coord, r);
    }

    /** The index of the first ship covering `coord`; some ship covers every
        occupied cell. */
    method FindOwner(coord: Coord) returns (k: int)
      requires Valid() && coord in occupied
      ensures 0 <= k < |ships| && coord in ships[k].positions
      ensures forall j :: 0 <= j < k ==> coord !in ships[j].positions
    {
      for i := 0 to |ships|
        invariant forall j :: 0 <= j < i ==> coord !in ships[j].positions
      {
        if ships[i].Occupies(coord) {
          return i;
        }
      }
      // an occupied cell always belongs to one of the ships
      assert false;
      return 0;
    }

    /** The effect of ReceiveFire(coord) returning `r`: positions and occupied
        cells never change; a refused shot changes nothing; an accepted one
        adds `coord` to the shots and, on an occupied cell, to the hits of
        exactly the ship that covers it. */
    twostate predicate FiredAt(coord: Coord, new r: Result<ShotResult>)
      reads Repr()
    {
      FiredFrom(old(occupied), old(shotsTaken), old(Positions()), old(Hits()), coord, r)
    }

    /** FiredAt for a board whose occupied cells, shots, ship positions and
        ship hits were `occupied0`, `shots0`, `positions0` and `hits0` before
        the shot. */
    predicate FiredFrom(occupied0: set<Coord>, shots0: set<Coord>, positions0: seq<set<Coord>>,
                        hits0: seq<set<Coord>>, coord: Coord, r: Result<ShotResult>)
      requires |positions0| == |ships| && |hits0| == |ships|
      reads Repr()
    {
      && occupied == occupied0
      && (forall i :: 0 <= i < |ships| ==> ships[i].positions == positions0[i])
      && (!InGrid(coord, size) ==> r == Err(OutsideShot))
      && (InGrid(coord, size) && coord in shots0 ==> r == Err(AlreadyShot))
      && (r.Err? ==> shotsTaken == shots0)
      && (r.Err? ==> forall i :: 0 <= i < |ships| ==> ships[i].hits == hits0[i])
      && (InGrid(coord, size) && coord !in shots0 ==> r.Ok? && shotsTaken == shots0 + {coord})
      && (r.Ok? && coord !in occupied ==> r.value == ShotResult(Miss, None))
      && (r.Ok? ==> forall i :: 0 <= i < |ships| ==>
            ships[i].hits == if coord in ships[i].positions then hits0[i] + {coord} else hits0[i])
      && (r.Ok? ==> forall i :: 0 <= i < |ships| && coord in ships[i].positions ==>
            r.value == ShotResult((if ships[i].IsSunk() then Sunk else Hit), Some(ships[i])))
    }

    /** Whether every ship of the fleet is sunk. */
    predicate AllShipsSunk()
      reads Repr()
      ensures ships == [] ==> AllShipsSunk()
      ensures AllShipsSunk() ==> forall i :: 0 <= i < |ships| ==> ships[i].positions <= ships[i].hits
    {
      forall i :: 0 <= i < |ships| ==> ships[i].IsSunk()
    }

    /** A fleet that is all sunk has had every occupied cell fired at. */
    lemma SunkFleetWasShot()
      requires Valid() && AllShipsSunk()
      ensures occupied <= shotsTaken
    {
      forall c | c in occupied ensures c in shotsTaken {
        var i :| 0 <= i < |ships| && c in ships[i].positions;
        assert ships[i].IsSunk();
      }
    }

    /** With no ship placed, the fleet counts as all sunk. */
    lemma UnplacedFleetSunk()
      requires Valid() && occupied == {}
      ensures AllShipsSunk()
    {
      forall i | 0 <= i < |ships| ensures ships[i].IsSunk() {
        assert ships[i].positions <= Covered();
      }
    }

    /** The standard fleet covers 17 cells in all. */
    lemma StandardFleetTotal()
      requires HasStandardFleet()
      ensures FleetSize() == 17
      ensures forall i :: 0 <= i < |ships| ==> ships[i].size > 0
    {
      StandardFleetFacts();
      var sizes := seq(|ships|, i requires 0 <= i < |ships| => ships[i].size);
      assert sizes == Sizes(StandardFleet);
    }

    /** The fleet's total size. */
    function FleetSize(): int
    {
      TotalSize(seq(|ships|, i requires 0 <= i < |ships| => ships[i].size))
    }

    predicate AllShipsPlaced()
      reads this
      ensures ships == [] ==> (AllShipsPlaced() <==> occupied == {})
    {
      |occupied| == FleetSize()
    }

    /** The cells of each ship, in fleet order. */
    function Positions(): (ps: seq<set<Coord>>)
      reads Repr()
      ensures |ps| == |ships| && forall i :: 0 <= i < |ships| ==> ps[i] == ships[i].positions
    {
      seq(|ships|, i requires 0 <= i < |ships| reads Repr() => ships[i].positions)
    }

    /** The hits of each ship, in fleet order. */
    function Hits(): (hs: seq<set<Coord>>)
      reads Repr()
      ensures |hs| == |ships| && forall i :: 0 <= i < |ships| ==> hs[i] == ships[i].hits
    {
      seq(|ships|, i requires 0 <= i < |ships| reads Repr() => ships[i].hits)
    }

    /** With no ship of negative size, the occupied-cell count reaches the
        fleet's total size exactly when every ship is placed, and never
        exceeds it. */
    lemma AllShipsPlacedIff()
      requires Valid()
      requires forall i :: 0 <= i < |ships| ==> ships[i].size >= 0
      ensures |occupied| <= FleetSize()
      ensures AllShipsPlaced() <==> forall i :: 0 <= i < |ships| ==> ships[i].IsPlaced()
    {
      var ps := Positions();
      var sizes := seq(|ships|, i requires 0 <= i < |ships| => ships[i].size);
      DisjointUnionSize(ps, sizes);
      UnionMembers(ps);
      assert Union(ps) == occupied;
    }

    /** The first ship of the fleet whose name matches `name` ignoring case. */
    function GetShipByName(name: string): (r: Option<Ship>)
      ensures r.Some? ==> exists i :: (0 <= i < |ships| && r.value == ships[i]
                && Text.Lower(ships[i].name) == Text.Lower(name)
                && forall j :: 0 <= j < i ==> Text.Lower(ships[j].name) != Text.Lower(name))
      ensures r.None? ==> forall i :: 0 <= i < |ships| ==> Text.Lower(ships[i].name) != Text.Lower(name)
    {
      FirstNamed(ships, name)
    }

    /** The cells where some ship of the fleet was hit. */
    ghost function HitCells(): set<Coord>
      reads Repr()
    {
      set i, c | 0 <= i < |ships| && c in ships[i].hits :: c
    }

    /** The rendered grid: a hit shows on every hit cell, a miss on every shot
        cell no ship covers, a ship (when revealed) on the other covered
        cells, and every other cell is empty. */
    ghost predicate Renders(grid: array2<CellState>, revealShips: bool)
      reads Repr(), grid
    {
      Layered(grid, size, HitCells(), shotsTaken - occupied, if revealShips then occupied else {})
    }

    /** Builds the grid: empty everywhere, then misses, then hits, then
        (when `revealShips`) ships on cells still empty. */
    method Render(revealShips: bool) returns (grid: array2<CellState>)
      requires Valid()
      ensures fresh(grid)
      ensures Renders(grid, revealShips)
    {
      ghost var hit, miss := HitCells(), shotsTaken - occupied;
      label before:
      grid := new CellState[size, size]((_, _) => EmptyCell);
      MarkMisses(grid);
      MarkHits(grid, hit);
      if revealShips {
        MarkShips(grid, hit, miss);
      }
      HitsKept@before(this);
    }

    /** Overlays the hits of every ship on the grid of misses. */
    method MarkHits(grid: array2<CellState>, ghost hits: set<Coord>)
      requires Valid() && hits == HitCells() && Layered(grid, size, {}, shotsTaken - occupied, {})
      modifies grid
      ensures Layered(grid, size, hits, shotsTaken - occupied, {})
    {
      ghost var hit: set<Coord> := {};
      for i := 0 to |ships|
        invariant hit == set j, c | 0 <= j < i && c in ships[j].hits :: c
        invariant Layered(grid, size, hit, shotsTaken - occupied, {})
      {
        assert ships[i].hits <= Covered();
        PaintLayer(grid, ships[i].hits, HitCell, size, hit, shotsTaken - occupied, {});
        hit := hit + ships[i].hits;
      }
    }

    /** Overlays every ship on the cells of the grid that are still empty,
        over the layers `hit` and `miss` already drawn. */
    method MarkShips(grid: array2<CellState>, ghost hit: set<Coord>, ghost miss: set<Coord>)
      requires Valid() && Layered(grid, size, hit, miss, {}) && miss !! occupied
      modifies grid
      ensures Layered(grid, size, hit, miss, occupied)
    {
      var ps := Positions();
      UnionMembers(ps);
      assert Union(ps) == occupied;
      assert forall j, x :: 0 <= j < |ps| && x in ps[j] ==> x in occupied && InGrid(x, size);
      ghost var shown: set<Coord> := {};
      for i := 0 to |ps|
        invariant shown == Union(ps[..i])
        invariant Layered(grid, size, hit, miss, shown)
      {
        PaintLayer(grid, ps[i], ShipCell, size, hit, miss, shown);
        shown := shown + ps[i];
        UnionStep(ps, i);
      }
      assert ps[..|ps|] == ps;
    }

    /** Marks every shot that found no ship as a miss on an empty grid. */
    method MarkMisses(grid: array2<CellState>)
      requires Valid() && Layered(grid, size, {}, {}, {})
      modifies grid
      ensures Layered(grid, size, {}, shotsTaken - occupied, {})
    {
      var pending := shotsTaken;
      while pending != {}
        invariant pending <= shotsTaken
        invariant Layered(grid, size, {}, (shotsTaken - pending) - occupied, {})
        decreases pending
      {
        var coord :| coord in pending;
        if coord !in occupied {
          grid[coord.0, coord.1] := MissCell;
        }
        pending := pending - {coord};
      }
    }
  }

  /** Whether `grid` is n by n and shows, cell by cell, a hit on `hit`, else
      a miss on `miss`, else a ship on `shown`, else nothing. */
  ghost predicate Layered(grid: array2<CellState>, n: int, hit: set<Coord>, miss: set<Coord>, shown: set<Coord>)
    reads grid
  {
    && grid.Length0 == n && grid.Length1 == n
    && forall r, c :: 0 <= r < n && 0 <= c < n ==>
         grid[r, c] == if (r, c) in hit then HitCell
                       else if (r, c) in miss then MissCell
                       else if (r, c) in shown then ShipCell
                       else EmptyCell
  }

  /** A grid drawn with no ship layer shows no ship anywhere. */
  lemma HiddenShowsNoShip(grid: array2<CellState>, n: int, hit: set<Coord>, miss: set<Coord>)
    requires Layered(grid, n, hit, miss, {})
    ensures forall r, c :: 0 <= r < n && 0 <= c < n ==> grid[r, c] != ShipCell
  {
  }

  /** Draws `cells` on a layered grid: as hits over everything, or as a ship
      on the cells that are still empty. */
  method PaintLayer(grid: array2<CellState>, cells: set<Coord>, state: CellState, ghost n: int,
                    ghost hit: set<Coord>, ghost miss: set<Coord>, ghost shown: set<Coord>)
    requires state == HitCell || state == ShipCell
    requires Layered(grid, n, hit, miss, shown)
    requires forall x :: x in cells ==> InGrid(x, n)
    requires state == HitCell ==> shown == {}
    requires state == ShipCell ==> cells !! miss
    modifies grid
    ensures state == HitCell ==> Layered(grid, n, hit + cells, miss, shown)
    ensures state == ShipCell ==> Layered(grid, n, hit, miss, shown + cells)
  {
    var pending := cells;
    while pending != {}
      invariant pending <= cells
      invariant state == HitCell ==> Layered(grid, n, hit + (cells - pending), miss, shown)
      invariant state == ShipCell ==> Layered(grid, n, hit, miss, shown + (cells - pending))
      decreases pending
    {
      var coord :| coord in pending;
      if state == HitCell || grid[coord.0, coord.1] == EmptyCell {
        grid[coord.0, coord.1] := state;
      }
      pending := pending - {coord};
    }
  }

  /** The hit cells depend on the hits of the ships alone. */
  twostate lemma HitsKept(b: Board)
    requires forall i :: 0 <= i < |b.ships| ==> b.ships[i].hits == old(b.ships[i].hits)
    ensures b.HitCells() == old(b.HitCells())
  {
  }

  /** A failed placement leaves every ship where it was, and so keeps the
      board's invariant. */
  twostate lemma NoPlacementKeepsValid(b: Board)
    requires old(b.Valid())
    requires forall i :: 0 <= i < |b.ships| ==>
      b.ships[i].positions == old(b.ships[i].positions) && b.ships[i].hits == old(b.ships[i].hits)
    requires b.occupied == old(b.occupied) && b.shotsTaken == old(b.shotsTaken)
    ensures b.Valid()
  {
    assert b.Covered() == old(b.Covered());
  }

  /** Placing an unplaced ship on free cells inside the grid keeps the
      board's invariant. */
  twostate lemma PlacementKeepsValid(b: Board, new k: int)
    requires old(b.Valid())
    requires 0 <= k < |b.ships|
    requires forall i :: 0 <= i < |b.ships| && i != k ==>
      b.ships[i].positions == old(b.ships[i].positions) && b.ships[i].hits == old(b.ships[i].hits)
    requires old(b.ships[k].positions) == {}
    requires b.ships[k].positions !! old(b.occupied)
    requires b.occupied == old(b.occupied) + b.ships[k].positions
    requires b.ships[k].hits == old(b.ships[k].hits)
    requires b.shotsTaken == old(b.shotsTaken)
    requires |b.ships[k].positions| == b.ships[k].size
    requires forall c :: c in b.ships[k].positions ==> InGrid(c, b.size)
    ensures b.Valid()
  {
    PlacementKeepsDisjoint(b, k);
    PlacementKeepsCovered(b, k);
  }

  /** The placed ship's cells were free, so the fleet stays pairwise disjoint. */
  twostate lemma PlacementKeepsDisjoint(b: Board, new k: int)
    requires old(b.Valid())
    requires 0 <= k < |b.ships|
    requires forall i :: 0 <= i < |b.ships| && i != k ==>
      b.ships[i].positions == old(b.ships[i].positions) && b.ships[i].hits == old(b.ships[i].hits)
    requires old(b.ships[k].positions) == {}
    requires b.ships[k].positions !! old(b.occupied)
    requires b.occupied == old(b.occupied) + b.ships[k].positions
    ensures forall i, j :: 0 <= i < j < |b.ships| ==> b.ships[i].positions !! b.ships[j].positions
  {
    var ships := b.ships;
    forall i, j | 0 <= i < j < |ships| ensures ships[i].positions !! ships[j].positions {
      if i == k {
        assert ships[j].positions <= old(b.Covered());
      } else if j == k {
        assert ships[i].positions <= old(b.Covered());
      }
    }
  }

  /** The occupied cells grow by exactly the placed ship's cells. */
  twostate lemma PlacementKeepsCovered(b: Board, new k: int)
    requires old(b.Valid())
    requires 0 <= k < |b.ships|
    requires forall i :: 0 <= i < |b.ships| && i != k ==>
      b.ships[i].positions == old(b.ships[i].positions) && b.ships[i].hits == old(b.ships[i].hits)
    requires old(b.ships[k].positions) == {}
    requires b.ships[k].positions !! old(b.occupied)
    requires b.occupied == old(b.occupied) + b.ships[k].positions
    ensures b.occupied == b.Covered()
  {
    var ships := b.ships;
    forall c | c in b.occupied ensures c in b.Covered() {
      if c !in ships[k].positions {
        var i :| 0 <= i < |ships| && c in old(ships[i].positions);
        assert i != k;
      }
    }
    forall c | c in b.Covered() ensures c in b.occupied {
      var i :| 0 <= i < |ships| && c in ships[i].positions;
      if i != k {
        assert c in old(b.Covered());
      }
    }
  }

  /** Recording a hit on the ship that covers a cell just fired at keeps
      the board's invariant. */
  twostate lemma HitKeepsValid(b: Board, new k: int, new coord: Coord)
    requires old(b.Valid())
    requires 0 <= k < |b.ships| && coord in b.ships[k].positions
    requires forall i :: 0 <= i < |b.ships| ==> b.ships[i].positions == old(b.ships[i].positions)
    requires forall i :: 0 <= i < |b.ships| && i != k ==> b.ships[i].hits == old(b.ships[i].hits)
    requires b.ships[k].hits == old(b.ships[k].hits) + {coord}
    requires b.occupied == old(b.occupied)
    requires b.shotsTaken == old(b.shotsTaken) + {coord} && InGrid(coord, b.size)
    ensures b.Valid()
  {
    assert b.Covered() == old(b.Covered());
  }

  /** A shot that hit the ship at index k, the only one covering the cell,
      has the effect ReceiveFire promises. */
  twostate lemma HitFiredAt(b: Board, new k: int, new coord: Coord, new r: Result<ShotResult>)
    requires old(b.Valid())
    requires 0 <= k < |b.ships| && coord in b.ships[k].positions
    requires forall i :: 0 <= i < |b.ships| ==> b.ships[i].positions == old(b.ships[i].positions)
    requires forall i :: 0 <= i < |b.ships| && i != k ==> b.ships[i].hits == old(b.ships[i].hits)
    requires b.ships[k].hits == old(b.ships[k].hits) + {coord}
    requires b.occupied == old(b.occupied)
    requires InGrid(coord, b.size) && coord !in old(b.shotsTaken)
    requires b.shotsTaken == old(b.shotsTaken) + {coord}
    requires r == Ok(ShotResult((if b.ships[k].IsSunk() then Sunk else Hit), Some(b.ships[k])))
    ensures b.FiredAt(coord, r)
  {
    forall i | 0 <= i < |b.ships| && coord in b.ships[i].positions
      ensures r.value == ShotResult((if b.ships[i].IsSunk() then Sunk else Hit), Some(b.ships[i]))
    {
      if i != k {
        assert false;
      }
    }
  }

  /** A shot at a free cell has the effect ReceiveFire promises and keeps
      the board's invariant. */
  twostate lemma MissFiredAt(b: Board, new coord: Coord, new r: Result<ShotResult>)
    requires old(b.Valid())
    requires forall i :: 0 <= i < |b.ships| ==>
      b.ships[i].positions == old(b.ships[i].positions) && b.ships[i].hits == old(b.ships[i].hits)
    requires b.occupied == old(b.occupied) && coord !in b.occupied
    requires InGrid(coord, b.size) && coord !in old(b.shotsTaken)
    requires b.shotsTaken == old(b.shotsTaken) + {coord}
    requires r == Ok(ShotResult(Miss, None))
    ensures b.FiredAt(coord, r) && b.Valid()
  {
    assert b.Covered() == old(b.Covered());
  }

  /** The union of a sequence of cell sets. */
  ghost function Union(ps: seq<set<Coord>>): set<Coord>
  {
    if ps == [] then {} else Union(ps[..|ps| - 1]) + ps[|ps| - 1]
  }

  lemma UnionMembers(ps: seq<set<Coord>>)
    ensures forall c :: c in Union(ps) <==> exists i :: 0 <= i < |ps| && c in ps[i]
  {
    if ps != [] {
      var init := ps[..|ps| - 1];
      UnionMembers(init);
      assert forall i :: 0 <= i < |init| ==> init[i] == ps[i];
    }
  }

  /** One more set joins the union of a prefix. */
  lemma UnionStep(ps: seq<set<Coord>>, i: nat)
    requires i < |ps|
    ensures Union(ps[..i + 1]) == Union(ps[..i]) + ps[i]
  {
    assert ps[..i + 1][..i] == ps[..i];
  }

  /** The last of pairwise disjoint sets misses the union of the others. */
  lemma LastDisjoint(ps: seq<set<Coord>>)
    requires |ps| > 0 && forall i, j :: 0 <= i < j < |ps| ==> ps[i] !! ps[j]
    ensures Union(ps[..|ps| - 1]) !! ps[|ps| - 1]
  {
    var n := |ps| - 1;
    var init := ps[..n];
    UnionMembers(init);
    forall c | c in Union(init) ensures c !in ps[n] {
      var i :| 0 <= i < n && c in init[i];
      assert ps[i] !! ps[n];
    }
  }

  /** Pairwise disjoint sets, each either empty or of its prescribed size:
      their union is at most the total size, and reaches it exactly when
      every set has its size. */
  lemma {:induction false} DisjointUnionSize(ps: seq<set<Coord>>, sizes: seq<int>)
    requires |ps| == |sizes|
    requires forall i :: 0 <= i < |ps| ==> sizes[i] >= 0 && (ps[i] == {} || |ps[i]| == sizes[i])
    requires forall i, j :: 0 <= i < j < |ps| ==> ps[i] !! ps[j]
    ensures |Union(ps)| <= TotalSize(sizes)
    ensures |Union(ps)| == TotalSize(sizes) <==> forall i :: 0 <= i < |ps| ==> |ps[i]| == sizes[i]
  {
    if ps != [] {
      var n := |ps| - 1;
      var init, sinit := ps[..n], sizes[..n];
      assert forall i :: 0 <= i < n ==> init[i] == ps[i] && sinit[i] == sizes[i];
      DisjointUnionSize(init, sinit);
      LastDisjoint(ps);
      assert Union(ps) == Union(init) + ps[n];
      assert TotalSize(sizes) == TotalSize(sinit) + sizes[n];
      assert |Union(ps)| == |Union(init)| + |ps[n]|;
    }
  }

  /** The first ship in `fleet` whose name equals `name` ignoring case. */
  function FirstNamed(fleet: seq<Ship>, name: string): (r: Option<Ship>)
    ensures r.Some? ==> exists i :: (0 <= i < |fleet| && r.value == fleet[i]
              && Text.Lower(fleet[i].name) == Text.Lower(name)
              && forall j :: 0 <= j < i ==> Text.Lower(fleet[j].name) != Text.Lower(name))
    ensures r.None? ==> forall i :: 0 <= i < |fleet| ==> Text.Lower(fleet[i].name) != Text.Lower(name)
  {
    if fleet == [] then None
    else if Text.Lower(fleet[0].name) == Text.Lower(name) then Some(fleet[0])
    else
      var rest := FirstNamed(fleet[1..], name);
      assert forall i :: 1 <= i < |fleet| ==> fleet[i] == fleet[1..][i - 1];
      rest
  }
}
