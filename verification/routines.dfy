/**
  The shift routines as the source writes them: a row loop, a column loop
  that skips empty cells, and a `while (true)` slide loop with `continue`
  and `break`, all threading the board, the merge ledger, the score and the
  `moved` flag (kept together in one `Sweep` record). Each routine is proved
  to compute exactly the unified `Shift` for its direction(s). Each loop
  level is its own method here, and the body the three slide loops share
  once the neighbour is known to be on the board is `StepInto`.
 */
module Routines {
  import opened Wrappers
  import opened HexGrid
  import opened Engine

  predicate IsDiagonal(d: Dir) {
    d == UL || d == UR || d == DL || d == DR
  }

  // ---------------------------------------------------------------------
  // shiftLeft

  /** `shiftLeft`. */
  method ShiftLeft(g: Game) returns (moved: bool, next: Game)
    requires WellShaped(g.grid)
    ensures ShiftResult(moved, next) == Shift(g, L)
  {
    if g.animating {
      return false, g;
    }
    var st := SweepLeft(g.grid, g.score);
    moved, next := st.moved, Commit(g, st);
  }

  /** The row loop of `shiftLeft`: rows top to bottom. */
  method SweepLeft(grid: Grid, score: int) returns (st: Sweep)
    requires WellShaped(grid)
    ensures st == SweepBoard(grid, score, L)
  {
    hide ColsDone, ProcessCell, Slide;
    st := Fresh(grid, score);
    ghost var s0 := st;
    var r := 0;
    while r < Height
      invariant 0 <= r <= Height
      invariant st == RowsDone(s0, L, r)
    {
      st := ScanRowLeft(st, r);
      r := r + 1;
    }
  }

  /** The column loop of `shiftLeft` for row `r`: columns 1..W-1, left to right. */
  method ScanRowLeft(st0: Sweep, r: int) returns (st: Sweep)
    requires WellShaped(st0.grid) && 0 <= r < Height
    ensures st == ColsDone(st0, L, r, NCols(L))
  {
    hide Slide;
    st := st0;
    var c := 1;
    while c < Width
      invariant 1 <= c <= Width
      invariant st == ColsDone(st0, L, r, c - 1)
    {
      assert ScanCell(L, r, c - 1) == Cell(r, c);
      if st.grid[r][c].Some? {
        st := SlideLeft(st, r, c);
      }
      c := c + 1;
    }
  }

  /** The slide loop of `shiftLeft` for the tile found at (r, c). */
  method SlideLeft(st0: Sweep, r: int, c: int) returns (st: Sweep)
    requires WellShaped(st0.grid) && InBounds(Cell(r, c)) && st0.grid[r][c].Some?
    ensures st == ProcessCell(st0, Cell(r, c), L)
  {
    st := st0;
    var tile := st.grid[r][c].value;
    var currR, currC := r, c;
    while true
      invariant currR == r && 0 <= currC < Width
      invariant WellShaped(st.grid)
      invariant Slide(st, tile, Cell(currR, currC), L) == ProcessCell(st0, Cell(r, c), L)
      decreases currC
    {
      SlideUnfold(st, tile, Cell(currR, currC), L);
      var nr, nc := currR, currC - 1;
      if nc < 0 {
        break;
      }
      var go;
      st, tile, go := StepInto(st, tile, Cell(currR, currC), Cell(nr, nc));
      if !go {
        break;
      }
      currC := nc;
    }
  }

  // ---------------------------------------------------------------------
  // shiftRight

  /** `shiftRight`. */
  method ShiftRight(g: Game) returns (moved: bool, next: Game)
    requires WellShaped(g.grid)
    ensures ShiftResult(moved, next) == Shift(g, R)
  {
    if g.animating {
      return false, g;
    }
    var st := SweepRight(g.grid, g.score);
    moved, next := st.moved, Commit(g, st);
  }

  /** The row loop of `shiftRight`: rows top to bottom. */
  method SweepRight(grid: Grid, score: int) returns (st: Sweep)
    requires WellShaped(grid)
    ensures st == SweepBoard(grid, score, R)
  {
    hide ColsDone, ProcessCell, Slide;
    st := Fresh(grid, score);
    ghost var s0 := st;
    var r := 0;
    while r < Height
      invariant 0 <= r <= Height
      invariant st == RowsDone(s0, R, r)
    {
      st := ScanRowRight(st, r);
      r := r + 1;
    }
  }

  /** The column loop of `shiftRight` for row `r`: columns W-2..0, right to left. */
  method ScanRowRight(st0: Sweep, r: int) returns (st: Sweep)
    requires WellShaped(st0.grid) && 0 <= r < Height
    ensures st == ColsDone(st0, R, r, NCols(R))
  {
    hide Slide;
    st := st0;
    var c := Width - 2;
    while c >= 0
      invariant -1 <= c <= Width - 2
      invariant st == ColsDone(st0, R, r, Width - 2 - c)
    {
      assert ScanCell(R, r, Width - 2 - c) == Cell(r, c);
      if st.grid[r][c].Some? {
        st := SlideRight(st, r, c);
      }
      c := c - 1;
    }
  }

  /** The slide loop of `shiftRight` for the tile found at (r, c). */
  method SlideRight(st0: Sweep, r: int, c: int) returns (st: Sweep)
    requires WellShaped(st0.grid) && InBounds(Cell(r, c)) && st0.grid[r][c].Some?
    ensures st == ProcessCell(st0, Cell(r, c), R)
  {
    st := st0;
    var tile := st.grid[r][c].value;
    var currR, currC := r, c;
    while true
      invariant currR == r && 0 <= currC < Width
      invariant WellShaped(st.grid)
      invariant Slide(st, tile, Cell(currR, currC), R) == ProcessCell(st0, Cell(r, c), R)
      decreases Width - currC
    {
      SlideUnfold(st, tile, Cell(currR, currC), R);
      var nr, nc := currR, currC + 1;
      if nc >= Width {
        break;
      }
      var go;
      st, tile, go := StepInto(st, tile, Cell(currR, currC), Cell(nr, nc));
      if !go {
        break;
      }
      currC := nc;
    }
  }

  // ---------------------------------------------------------------------
  // shiftDirectional

  /** `shiftDirectional`, for the four diagonal directions. */
  method ShiftDirectional(g: Game, dir: Dir) returns (moved: bool, next: Game)
    requires WellShaped(g.grid) && IsDiagonal(dir)
    ensures ShiftResult(moved, next) == Shift(g, dir)
  {
    if g.animating {
      return false, g;
    }
    var st := SweepDirectional(g.grid, g.score, dir);
    moved, next := st.moved, Commit(g, st);
  }

  /**
    The row loop of `shiftDirectional`: for UL and UR rows 1..H-1 top to
    bottom, for DL and DR rows H-2..0 bottom to top.
   */
  method SweepDirectional(grid: Grid, score: int, dir: Dir) returns (st: Sweep)
    requires WellShaped(grid) && IsDiagonal(dir)
    ensures st == SweepBoard(grid, score, dir)
  {
    hide ColsDone, ProcessCell, Slide;
    st := Fresh(grid, score);
    ghost var s0 := st;
    var down := dir == DL || dir == DR;
    var startRow := if down then Height - 2 else 1;
    var endRow := if down then -1 else Height;
    var stepRow := if down then -1 else 1;

    var r := startRow;
    ghost var i := 0;
    RowOrder(dir, i);
    while r != endRow
      invariant 0 <= i <= NRows(dir)
      invariant r == RowAt(dir, i)
      invariant st == RowsDone(s0, dir, i)
      decreases NRows(dir) - i
    {
      RowOrder(dir, i);
      st := ScanRowDirectional(st, dir, i, r);
      r := r + stepRow;
      i := i + 1;
    }
    RowOrder(dir, i);
  }

  /** The diagonal row loop's bounds and step, as `RowAt` orders the scan rows. */
  lemma RowOrder(dir: Dir, i: int)
    requires IsDiagonal(dir) && 0 <= i <= NRows(dir)
    ensures RowAt(dir, 0) == (if dir == DL || dir == DR then Height - 2 else 1)
    ensures RowAt(dir, i) == (if dir == DL || dir == DR then -1 else Height) <==> i == NRows(dir)
    ensures RowAt(dir, i + 1) == RowAt(dir, i) + (if dir == DL || dir == DR then -1 else 1)
  {
  }

  /** The column loop of `shiftDirectional` for row `r`: columns left to right. */
  method ScanRowDirectional(st0: Sweep, dir: Dir, ghost i: int, r: int) returns (st: Sweep)
    requires WellShaped(st0.grid) && IsDiagonal(dir) && 0 <= i < NRows(dir) && r == RowAt(dir, i)
    ensures st == ColsDone(st0, dir, i, NCols(dir))
  {
    hide Slide;
    st := st0;
    var c := 0;
    while c < Width
      invariant 0 <= c <= Width
      invariant st == ColsDone(st0, dir, i, c)
    {
      assert ScanCell(dir, i, c) == Cell(r, c);
      if st.grid[r][c].Some? {
        st := SlideDirectional(st, r, c, dir);
      }
      c := c + 1;
    }
  }

  /** The slide loop of `shiftDirectional` for the tile found at (r, c). */
  method SlideDirectional(st0: Sweep, r: int, c: int, dir: Dir) returns (st: Sweep)
    requires WellShaped(st0.grid) && InBounds(Cell(r, c)) && st0.grid[r][c].Some?
    ensures st == ProcessCell(st0, Cell(r, c), dir)
  {
    st := st0;
    var tile := st.grid[r][c].value;
    var currR, currC := r, c;
    while true
      invariant InBounds(Cell(currR, currC))
      invariant WellShaped(st.grid)
      invariant Slide(st, tile, Cell(currR, currC), dir) == ProcessCell(st0, Cell(r, c), dir)
      decreases Distance(Cell(currR, currC), dir)
    {
      SlideUnfold(st, tile, Cell(currR, currC), dir);
      var n := Neighbor(Cell(currR, currC), dir);
      var nr, nc := n.row, n.col;
      if nr < 0 || nr >= Height || nc < 0 || nc >= Width {
        break;
      }
      var go;
      st, tile, go := StepInto(st, tile, Cell(currR, currC), n);
      if !go {
        break;
      }
      currR, currC := nr, nc;
    }
  }

  // ---------------------------------------------------------------------
  // The body shared by the three slide loops

  /**
    One pass of a slide loop once the neighbour `n` is known to be on the
    board: an empty neighbour takes the tile and the loop goes on; an equal
    neighbour not yet merged into this call absorbs it (the neighbour
    doubles, the score gains the doubled value, the ledger marks `n`, the
    tile is queued for removal) and the loop stops; otherwise the loop stops
    with nothing changed.
   */
  method StepInto(st0: Sweep, tile0: Tile, cur: Cell, n: Cell) returns (st: Sweep, tile: Tile, go: bool)
    requires WellShaped(st0.grid) && InBounds(cur) && InBounds(n)
    ensures go <==> TileAt(st0.grid, n).None?
    ensures go ==> st == MoveStep(st0, tile0, cur, n) && tile == Moved(tile0, n)
    ensures !go ==> st == (if TileAt(st0.grid, n).value.value == tile0.value && n !in st0.merged
                           then MergeStep(st0, tile0, cur, n, TileAt(st0.grid, n).value) else st0)
  {
    st, tile := st0, tile0;
    var neighbor := st.grid[n.row][n.col];
    if neighbor.None? {
      tile := tile.(row := n.row, col := n.col, targetRow := n.row, targetCol := n.col);
      st := st.(grid := Put(Put(st.grid, n, Some(tile)), cur, None), moved := true);
      return st, tile, true;
    }
    var other := neighbor.value;
    if other.value == tile.value && n !in st.merged {
      other := other.(value := other.value * 2);
      tile := tile.(targetRow := n.row, targetCol := n.col, willRemove := true);
      st := st.(grid := Put(Put(st.grid, n, Some(other)), cur, None),
                score := st.score + other.value,
                merged := st.merged + {n},
                moved := true,
                removed := st.removed + [tile]);
    }
    return st, tile, false;
  }

  // ---------------------------------------------------------------------
  // The per-direction entry points and the dispatch

  /** `shiftUpLeft`. */
  method ShiftUpLeft(g: Game) returns (moved: bool, next: Game)
    requires WellShaped(g.grid)
    ensures ShiftResult(moved, next) == Shift(g, UL)
  {
    moved, next := ShiftDirectional(g, UL);
  }

  /** `shiftUpRight`. */
  method ShiftUpRight(g: Game) returns (moved: bool, next: Game)
    requires WellShaped(g.grid)
    ensures ShiftResult(moved, next) == Shift(g, UR)
  {
    moved, next := ShiftDirectional(g, UR);
  }

  /** `shiftDownLeft`. */
  method ShiftDownLeft(g: Game) returns (moved: bool, next: Game)
    requires WellShaped(g.grid)
    ensures ShiftResult(moved, next) == Shift(g, DL)
  {
    moved, next := ShiftDirectional(g, DL);
  }

  /** `shiftDownRight`. */
  method ShiftDownRight(g: Game) returns (moved: bool, next: Game)
    requires WellShaped(g.grid)
    ensures ShiftResult(moved, next) == Shift(g, DR)
  {
    moved, next := ShiftDirectional(g, DR);
  }

  /**
    The dispatch of the keyboard handler: each intent calls its routine,
    and whichever routine runs computes the unified `Shift`.
   */
  method Move(g: Game, d: Dir) returns (moved: bool, next: Game)
    requires WellShaped(g.grid)
    ensures ShiftResult(moved, next) == Shift(g, d)
  {
    match d
    case L => moved, next := ShiftLeft(g);
    case R => moved, next := ShiftRight(g);
    case UL => moved, next := ShiftUpLeft(g);
    case UR => moved, next := ShiftUpRight(g);
    case DL => moved, next := ShiftDownLeft(g);
    case DR => moved, next := ShiftDownRight(g);
  }
}
