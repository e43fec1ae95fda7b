/*
 * A vessel: a fixed name and size, the cells it was placed on and the cells
 * where it has been hit. A ship knows nothing about the board and does not
 * validate its own placement.
 */
module Ships {
  import opened Errors

  /** (row, column) on the grid. */
  type Coord = (int, int)

  class Ship {
    const name: string
    const size: int
    var positions: set<Coord>
    var hits: set<Coord>

    /** A new ship is unplaced and unhit. */
    constructor (name: string, size: int)
      ensures this.name == name && this.size == size
      ensures positions == {} && hits == {}
    {
      this.name := name;
      this.size := size;
      positions := {};
      hits := {};
    }

    /** Assigns the cells, refusing a set whose size is not the ship's. */
    method Place(cells: set<Coord>) returns (r: Outcome)
      modifies this`positions
      ensures r == (if |cells| == size then Pass else Fail(InvalidPositions))
      ensures positions == (if r.Pass? then cells else old(positions))
    {
      if |cells| != size {
        return Fail(InvalidPositions);
      }
      positions := cells;
      return Pass;
    }

    /** Whether `c` is one of the ship's cells; an unplaced ship occupies
        none. */
    predicate Occupies(c: Coord)
      reads this`positions
      ensures positions == {} ==> !Occupies(c)
    {
      c in positions
    }

    /** Records a hit on one of the ship's own cells; any other cell is
        refused and leaves the hits alone. */
    method RegisterHit(c: Coord) returns (hit: bool)
      modifies this`hits
      ensures hit == (c in positions)
      ensures hits == (if hit then old(hits) + {c} else old(hits))
    {
      if c !in positions {
        return false;
      }
      hits := hits + {c};
      return true;
    }

    /** Registering the same cell twice leaves the hits as registering it
        once does. */
    method HitTwice(c: Coord) returns (first: bool, second: bool)
      modifies this`hits
      ensures first == second == (c in positions)
      ensures hits == (if first then old(hits) + {c} else old(hits))
    {
      first := RegisterHit(c);
      second := RegisterHit(c);
    }

    /** Whether every cell of the ship has been hit. With its hits on its
        own cells, a ship is sunk exactly when no cell is left unhit, so an
        unplaced ship with no hits counts as sunk. */
    predicate IsSunk()
      reads this
      ensures hits <= positions ==> (IsSunk() <==> positions - hits == {})
      ensures positions == {} && hits == {} ==> IsSunk()
    {
      NoneLeft(positions, hits);
      hits == positions
    }

    /** Whether the ship covers as many cells as its size. A ship of
        negative size is never placed; one of size zero is placed while it
        covers nothing. */
    predicate IsPlaced()
      reads this`positions
      ensures size < 0 ==> !IsPlaced()
      ensures size == 0 ==> (IsPlaced() <==> positions == {})
    {
      |positions| == size
    }
  }

  /** A set with nothing outside `hits` lies within it. */
  lemma NoneLeft(positions: set<Coord>, hits: set<Coord>)
    ensures positions - hits == {} ==> positions <= hits
  {
    if positions - hits == {} {
      forall x | x in positions ensures x in hits {
        assert x !in positions - hits;
      }
    }
  }

  /** Registering a hit on a cell the ship occupies makes it sunk exactly
      when that cell was the last one not yet hit. */
  lemma SinkingHit(positions: set<Coord>, hits: set<Coord>, c: Coord)
    requires hits <= positions && c in positions
    ensures hits + {c} == positions <==> positions - hits <= {c}
  {
    if positions - hits <= {c} {
      forall x | x in positions ensures x in hits + {c} {
        if x !in hits {
          assert x in positions - hits;
        }
      }
    }
  }

  /** Name and size of each ship of the standard fleet, in fleet order. */
  const StandardFleet: seq<(string, int)> :=
    [("Carrier", 5), ("Battleship", 4), ("Cruiser", 3), ("Submarine", 3), ("Destroyer", 2)]

  function TotalSize(sizes: seq<int>): int
  {
    if sizes == [] then 0 else TotalSize(sizes[..|sizes| - 1]) + sizes[|sizes| - 1]
  }

  function Sizes(fleet: seq<(string, int)>): (r: seq<int>)
    ensures |r| == |fleet| && forall i :: 0 <= i < |fleet| ==> r[i] == fleet[i].1
  {
    seq(|fleet|, i requires 0 <= i < |fleet| => fleet[i].1)
  }

  /** The standard fleet has five ships with pairwise distinct names and
      positive sizes 5, 4, 3, 3, 2, which together cover 17 cells. */
  lemma StandardFleetFacts()
    ensures |StandardFleet| == 5
    ensures forall i, j :: 0 <= i < j < |StandardFleet| ==> StandardFleet[i].0 != StandardFleet[j].0
    ensures Sizes(StandardFleet) == [5, 4, 3, 3, 2]
    ensures forall i :: 0 <= i < |StandardFleet| ==> StandardFleet[i].1 > 0
    ensures TotalSize(Sizes(StandardFleet)) == 17
  {
    var s := Sizes(StandardFleet);
    assert s == [5, 4, 3, 3, 2];
    assert s[..4] == [5, 4, 3, 3] && s[..4][..3] == [5, 4, 3] && [5, 4, 3][..2] == [5, 4];
    assert [5, 4][..1] == [5] && [5][..0] == [];
    assert TotalSize([5, 4]) == 9;
    assert TotalSize([5, 4, 3]) == 12;
    assert TotalSize([5, 4, 3, 3]) == 15;
  }

  /** Builds the five ships of the standard fleet, each a new object,
      unplaced and unhit. */
  method StandardShips() returns (fleet: seq<Ship>)
    ensures |fleet| == |StandardFleet|
    ensures forall i :: 0 <= i < |fleet| ==>
      fresh(fleet[i]) && fleet[i].name == StandardFleet[i].0 && fleet[i].size == StandardFleet[i].1
      && fleet[i].positions == {} && fleet[i].hits == {}
    ensures forall i, j :: 0 <= i < j < |fleet| ==> fleet[i] != fleet[j]
  {
    var carrier := new Ship("Carrier", 5);
    var battleship := new Ship("Battleship", 4);
    var cruiser := new Ship("Cruiser", 3);
    var submarine := new Ship("Submarine", 3);
    var destroyer := new Ship("Destroyer", 2);
    fleet := [carrier, battleship, cruiser, submarine, destroyer];
  }
}
