/**
  `spawnPiece` and `init`: the list of empty cells in row-major order, a
  new 2 or 4 in one of them, and the fresh board with two such tiles.
  `Math.random` becomes two parameters: `pick`, reduced modulo the number of
  empty cells as `Math.floor(Math.random() * empties.length)` always lands
  on a valid index, and `four`, standing for the draw that chose a 4.
 */
module Spawning {
  import opened Wrappers
  import opened HexGrid

  /** `a` comes before `b` in the row-by-row, column-by-column scan. */
  predicate Precedes(a: Cell, b: Cell) {
    a.row < b.row || (a.row == b.row && a.col < b.col)
  }

  /** The empty cells of row `r` in columns below `c`, left to right. */
  function RowEmpties(g: Grid, r: int, c: int): seq<Cell>
    requires 0 <= c <= Width
    decreases c
  {
    if c == 0 then []
    else RowEmpties(g, r, c - 1) + (if TileAt(g, Cell(r, c - 1)).None? then [Cell(r, c - 1)] else [])
  }

  /** The empty cells of the rows below `r`, in scan order. */
  function EmptiesAbove(g: Grid, r: int): seq<Cell>
    requires 0 <= r <= Height
    decreases r
  {
    if r == 0 then [] else EmptiesAbove(g, r - 1) + RowEmpties(g, r - 1, Width)
  }

  /** The `empties` array of `spawnPiece`. */
  function Empties(g: Grid): seq<Cell> {
    EmptiesAbove(g, Height)
  }

  /** A list strictly increasing in scan order, so without repeats. */
  ghost predicate ScanOrdered(cs: seq<Cell>) {
    forall i, j :: 0 <= i < j < |cs| ==> Precedes(cs[i], cs[j])
  }

  /** The part of row `r` before column `c`: its empty cells. */
  lemma {:induction false} RowEmptiesMembers(g: Grid, r: int, c: int)
    requires 0 <= r < Height && 0 <= c <= Width
    ensures forall y :: y in RowEmpties(g, r, c) <==> InBounds(y) && y.row == r && y.col < c && TileAt(g, y).None?
    decreases c
  {
    if c > 0 {
      RowEmptiesMembers(g, r, c - 1);
    }
  }

  /** The rows before `r`: their empty cells. */
  lemma {:induction false} EmptiesAboveMembers(g: Grid, r: int)
    requires 0 <= r <= Height
    ensures forall y :: y in EmptiesAbove(g, r) <==> InBounds(y) && y.row < r && TileAt(g, y).None?
    decreases r
  {
    hide RowEmpties, TileAt;
    if r > 0 {
      EmptiesAboveMembers(g, r - 1);
      RowEmptiesMembers(g, r - 1, Width);
    }
  }

  /** The list holds exactly the empty board cells; it is empty iff the board is full. */
  lemma EmptiesMembers(g: Grid)
    ensures forall c :: c in Empties(g) <==> InBounds(c) && TileAt(g, c).None?
    ensures |Empties(g)| == 0 <==> Full(g)
  {
    EmptiesAboveMembers(g, Height);
    if |Empties(g)| > 0 {
      assert Empties(g)[0] in Empties(g);
    }
  }

  /** Row `r`'s empty cells come in increasing column order. */
  lemma {:induction false} RowEmptiesOrdered(g: Grid, r: int, c: int)
    requires 0 <= r < Height && 0 <= c <= Width
    ensures forall y :: y in RowEmpties(g, r, c) ==> y.row == r && y.col < c
    ensures ScanOrdered(RowEmpties(g, r, c))
    decreases c
  {
    if c > 0 {
      RowEmptiesOrdered(g, r, c - 1);
    }
  }

  /** Two scan-ordered lists, every cell of the first before every cell of the second. */
  lemma ConcatOrdered(a: seq<Cell>, b: seq<Cell>, row: int)
    requires ScanOrdered(a) && ScanOrdered(b)
    requires forall y :: y in a ==> y.row < row
    requires forall y :: y in b ==> y.row == row
    ensures ScanOrdered(a + b)
  {
    forall i, j | 0 <= i < j < |a + b|
      ensures Precedes((a + b)[i], (a + b)[j])
    {
      if j < |a| {
        assert (a + b)[i] == a[i] && (a + b)[j] == a[j];
      } else if i < |a| {
        assert (a + b)[i] == a[i] && (a + b)[j] == b[j - |a|];
        assert a[i] in a && b[j - |a|] in b;
      } else {
        assert (a + b)[i] == b[i - |a|] && (a + b)[j] == b[j - |a|];
      }
    }
  }

  /** The rows before `r` contribute their empty cells in scan order. */
  lemma {:induction false} EmptiesAboveOrdered(g: Grid, r: int)
    requires 0 <= r <= Height
    ensures forall y :: y in EmptiesAbove(g, r) ==> y.row < r
    ensures ScanOrdered(EmptiesAbove(g, r))
    decreases r
  {
    hide RowEmpties;
    if r > 0 {
      EmptiesAboveOrdered(g, r - 1);
      RowEmptiesOrdered(g, r - 1, Width);
      ConcatOrdered(EmptiesAbove(g, r - 1), RowEmpties(g, r - 1, Width), r - 1);
    }
  }

  /** `empties` lists the empty cells in the order the scan meets them, without repeats. */
  lemma EmptiesOrdered(g: Grid)
    ensures ScanOrdered(Empties(g))
  {
    EmptiesAboveOrdered(g, Height);
  }

  /** The value of a spawned tile: 4 for the draw that picks 4, otherwise 2. */
  function SpawnValue(four: bool): (v: nat)
    ensures v == 2 || v == 4
    ensures IsTileValue(v)
  {
    assert IsPow2(1);
    assert IsPow2(2);
    if four then 4 else 2
  }

  datatype Spawned = Spawned(placed: bool, grid: Grid)

  /**
    `spawnPiece`: nothing happens on a full board; otherwise one empty
    cell, chosen by `pick` among the empty cells, receives a new tile.
   */
  function Spawn(g: Grid, pick: nat, four: bool): (r: Spawned)
    requires WellShaped(g)
    ensures WellShaped(r.grid)
  {
    var empties := Empties(g);
    if |empties| == 0 then Spawned(false, g)
    else
      var c := empties[pick % |empties|];
      assert InBounds(c) by { EmptiesMembers(g); }
      Spawned(true, MakeTile(g, SpawnValue(four), c))
  }

  /** The cell `Spawn` fills, when the board has room. */
  function SpawnCell(g: Grid, pick: nat): (c: Option<Cell>)
    ensures c.Some? ==> InBounds(c.value) && TileAt(g, c.value).None?
    ensures c.None? <==> Full(g)
  {
    EmptiesMembers(g);
    var empties := Empties(g);
    if |empties| == 0 then None else Some(empties[pick % |empties|])
  }

  /**
    A spawn reports success exactly when the board had an empty cell; on
    failure the board is untouched.
   */
  lemma SpawnPlaced(g: Grid, pick: nat, four: bool)
    requires WellShaped(g)
    ensures Spawn(g, pick, four).placed <==> !Full(g)
    ensures Spawn(g, pick, four).placed <==> SpawnCell(g, pick).Some?
    ensures !Spawn(g, pick, four).placed ==> Spawn(g, pick, four).grid == g
  {
    hide MakeTile, Full;
    EmptiesMembers(g);
  }

  /**
    On success the chosen cell, empty before, now holds a new resting tile
    of value 2 or 4, and every other cell is unchanged.
   */
  lemma SpawnFrame(g: Grid, pick: nat, four: bool)
    requires WellShaped(g) && SpawnCell(g, pick).Some?
    ensures var c := SpawnCell(g, pick).value;
      && TileAt(g, c).None?
      && TileAt(Spawn(g, pick, four).grid, c) == Some(NewTile(SpawnValue(four), c))
      && (forall y :: y != c ==> TileAt(Spawn(g, pick, four).grid, y) == TileAt(g, y))
  {
    hide Full;
    EmptiesMembers(g);
  }

  /** A successful spawn adds one tile to the count and its value to the sum. */
  lemma SpawnTotals(g: Grid, pick: nat, four: bool)
    requires WellShaped(g)
    ensures var r := Spawn(g, pick, four);
      && Count(r.grid) == Count(g) + (if r.placed then 1 else 0)
      && Sum(r.grid) == Sum(g) + (if r.placed then SpawnValue(four) else 0)
  {
    hide Full, Total;
    EmptiesMembers(g);
    var r := Spawn(g, pick, four);
    if r.placed {
      var c := SpawnCell(g, pick).value;
      var x := Some(NewTile(SpawnValue(four), c));
      PutTotal(g, c, x, Occupancy);
      PutTotal(g, c, x, Value);
    }
  }

  /** A spawn keeps every stored tile at rest where it is stored. */
  lemma SpawnValid(g: Grid, pick: nat, four: bool)
    requires Valid(g)
    ensures Valid(Spawn(g, pick, four).grid)
  {
    hide Full, Total;
    var r := Spawn(g, pick, four);
    if r.placed {
      SpawnPlaced(g, pick, four);
      SpawnFrame(g, pick, four);
      var c := SpawnCell(g, pick).value;
      forall y | TileAt(r.grid, y).Some?
        ensures Resting(TileAt(r.grid, y).value, y)
      {
        if y != c {
          assert TileAt(r.grid, y) == TileAt(g, y);
        }
      }
    }
  }

  /** Every empty cell, with either value, is a possible outcome of a spawn. */
  lemma SpawnReachesEvery(g: Grid, c: Cell, four: bool)
    requires WellShaped(g) && InBounds(c) && TileAt(g, c).None?
    ensures exists pick: nat :: Spawn(g, pick, four).placed && TileAt(Spawn(g, pick, four).grid, c) == Some(NewTile(SpawnValue(four), c))
  {
    hide Spawn, MakeTile, EmptiesAbove, Full;
    EmptiesMembers(g);
    var empties := Empties(g);
    var i :| 0 <= i < |empties| && empties[i] == c;
    assert i % |empties| == i;
    assert SpawnCell(g, i) == Some(c);
    SpawnPlaced(g, i, four);
    SpawnFrame(g, i, four);
  }

  /** `spawnPiece`, with its scan for empty cells written as loops. */
  method SpawnPiece(g: Grid, pick: nat, four: bool) returns (placed: bool, g': Grid)
    requires WellShaped(g)
    ensures Spawned(placed, g') == Spawn(g, pick, four)
  {
    var empties := CollectEmpties(g);
    if |empties| == 0 {
      return false, g;
    }
    var idx := pick % |empties|;
    var cell := empties[idx];
    assert InBounds(cell) by { EmptiesMembers(g); }
    return true, MakeTile(g, SpawnValue(four), cell);
  }

  /** The row-by-row, column-by-column scan that builds `empties`. */
  method CollectEmpties(g: Grid) returns (empties: seq<Cell>)
    requires WellShaped(g)
    ensures empties == Empties(g)
  {
    empties := [];
    for r := 0 to Height
      invariant empties == EmptiesAbove(g, r)
    {
      for c := 0 to Width
        invariant empties == EmptiesAbove(g, r) + RowEmpties(g, r, c)
      {
        if g[r][c].None? {
          empties := empties + [Cell(r, c)];
        }
      }
    }
  }
}
