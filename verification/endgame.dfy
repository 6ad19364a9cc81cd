/**
  The game-over test `noMovesAvailable`: the board is stuck when every
  cell holds a tile and no tile has an equal-valued tile next to it in any
  of the six directions. Stuck is the same as "full, and no shift in any
  direction would change anything".
 */
module Endgame {
  import opened Wrappers
  import opened HexGrid
  import opened Engine
  import opened Moves

  /** The six directions in the order the source lists them. */
  const Dirs: seq<Dir> := [L, R, UL, UR, DL, DR]

  /** The tile at `c` has a tile of the same value next to it toward `d`. */
  predicate EqualNeighbor(g: Grid, c: Cell, d: Dir) {
    && TileAt(g, c).Some?
    && TileAt(g, Neighbor(c, d)).Some?
    && TileAt(g, Neighbor(c, d)).value.value == TileAt(g, c).value.value
  }

  /** Every cell of the board holds a tile. */
  predicate Filled(g: Grid) {
    forall r, c :: 0 <= r < Height && 0 <= c < Width ==> TileAt(g, Cell(r, c)).Some?
  }

  /** The row-and-column reading of a full board agrees with the cell-wise one. */
  lemma FilledIsFull(g: Grid)
    ensures Filled(g) <==> Full(g)
  {
    if Filled(g) {
      forall c | InBounds(c)
        ensures TileAt(g, c).Some?
      {
        assert TileAt(g, Cell(c.row, c.col)).Some?;
      }
    }
  }

  /** The tile at `c` has an equal-valued neighbour in one of the six directions. */
  predicate HasEqualNeighbor(g: Grid, c: Cell) {
    exists k :: 0 <= k < |Dirs| && EqualNeighbor(g, c, Dirs[k])
  }

  /**
    No empty cell is left and no two equal tiles are neighbours. A lookup
    past the edge finds no tile, so edge tiles are only compared with the
    neighbours they have.
   */
  predicate Stuck(g: Grid) {
    && Filled(g)
    && (forall r, c :: 0 <= r < Height && 0 <= c < Width ==> !HasEqualNeighbor(g, Cell(r, c)))
  }

  /**
    `noMovesAvailable`: a scan for an empty cell, then a scan of every tile
    in every direction; either scan ending early answers "not stuck".
   */
  method NoMovesAvailable(g: Grid) returns (stuck: bool)
    requires WellShaped(g)
    ensures stuck <==> Stuck(g)
  {
    var empty := FindEmptyCell(g);
    if empty {
      return false;
    }
    var pair := FindEqualPair(g);
    return !pair;
  }

  /** The first loop of `noMovesAvailable`: is any cell empty? */
  method FindEmptyCell(g: Grid) returns (found: bool)
    requires WellShaped(g)
    ensures found <==> !Filled(g)
  {
    for r := 0 to Height
      invariant forall r', c' :: 0 <= r' < r && 0 <= c' < Width ==> TileAt(g, Cell(r', c')).Some?
    {
      for c := 0 to Width
        invariant forall r', c' :: 0 <= r' < r && 0 <= c' < Width ==> TileAt(g, Cell(r', c')).Some?
        invariant forall c' :: 0 <= c' < c ==> TileAt(g, Cell(r, c')).Some?
      {
        if g[r][c].None? {
          assert TileAt(g, Cell(r, c)).None?;
          return true;
        }
      }
    }
    return false;
  }

  /** The second loop of `noMovesAvailable`: does any tile have an equal neighbour? */
  method FindEqualPair(g: Grid) returns (found: bool)
    requires WellShaped(g)
    ensures found <==> exists r, c :: 0 <= r < Height && 0 <= c < Width && HasEqualNeighbor(g, Cell(r, c))
  {
    hide HasEqualNeighbor;
    for r := 0 to Height
      invariant forall r', c' :: 0 <= r' < r && 0 <= c' < Width ==> !HasEqualNeighbor(g, Cell(r', c'))
    {
      for c := 0 to Width
        invariant forall r', c' :: 0 <= r' < r && 0 <= c' < Width ==> !HasEqualNeighbor(g, Cell(r', c'))
        invariant forall c' :: 0 <= c' < c ==> !HasEqualNeighbor(g, Cell(r, c'))
      {
        var here := CellHasEqualNeighbor(g, r, c);
        if here {
          return true;
        }
      }
    }
    return false;
  }

  /** The inner direction loop for one cell; an empty cell is skipped. */
  method CellHasEqualNeighbor(g: Grid, r: int, c: int) returns (found: bool)
    requires WellShaped(g) && 0 <= r < Height && 0 <= c < Width
    ensures found <==> HasEqualNeighbor(g, Cell(r, c))
  {
    var tile := g[r][c];
    if tile.None? {
      return false;
    }
    for k := 0 to |Dirs|
      invariant forall k' :: 0 <= k' < k ==> !EqualNeighbor(g, Cell(r, c), Dirs[k'])
    {
      var n := Neighbor(Cell(r, c), Dirs[k]);
      var neighbor := TileAt(g, n);
      if neighbor.Some? && neighbor.value.value == tile.value.value {
        return true;
      }
    }
    return false;
  }

  /** Where each direction sits in `Dirs`. */
  function DirIndex(d: Dir): (k: int)
    ensures 0 <= k < |Dirs| && Dirs[k] == d
  {
    match d
    case L => 0
    case R => 1
    case UL => 2
    case UR => 3
    case DL => 4
    case DR => 5
  }

  /**
    The game-over test is exact: the board is stuck if and only if it is
    full and no shift, in any of the six directions, would move anything.
   */
  lemma StuckIffNoShiftMoves(g: Game)
    requires WellShaped(g.grid) && !g.animating
    ensures Stuck(g.grid) <==> Full(g.grid) && forall d :: !Shift(g, d).moved
  {
    forall d
      ensures Shift(g, d).moved <==> CanMove(g.grid, d)
    {
      ShiftMovesIff(g, d);
    }
    if Stuck(g.grid) {
      FilledIsFull(g.grid);
      forall d, c
        ensures !CanMoveAt(g.grid, c, d)
      {
        var k := DirIndex(d);
        if TileAt(g.grid, c).Some? {
          assert !HasEqualNeighbor(g.grid, Cell(c.row, c.col));
          assert !EqualNeighbor(g.grid, Cell(c.row, c.col), Dirs[k]);
        }
      }
    }
    if Full(g.grid) && forall d :: !CanMove(g.grid, d) {
      forall r, c | 0 <= r < Height && 0 <= c < Width
        ensures !HasEqualNeighbor(g.grid, Cell(r, c))
      {
        forall k | 0 <= k < |Dirs|
          ensures !EqualNeighbor(g.grid, Cell(r, c), Dirs[k])
        {
          assert !CanMove(g.grid, Dirs[k]);
          assert !CanMoveAt(g.grid, Cell(r, c), Dirs[k]);
        }
      }
    }
  }
}
