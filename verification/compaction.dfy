/**
  Why the scan order matters: visiting cells nearest the target edge first
  means that once a call ends, no tile anywhere on the board still has an
  empty cell in front of it. Each tile slides until blocked, and no later
  tile ever empties the cell that blocked an earlier one.
 */
module Compaction {
  import opened Wrappers
  import opened HexGrid
  import opened Engine

  /** Cells the scan for `d` never visits: the edge `d` points at. */
  predicate Skipped(c: Cell, d: Dir) {
    match d
    case L => c.col == 0
    case R => c.col == Width - 1
    case UL => c.row == 0
    case UR => c.row == 0
    case DL => c.row == Height - 1
    case DR => c.row == Height - 1
  }

  /** The scan-row index at which the scan for `d` visits `c`. */
  function OrdRow(c: Cell, d: Dir): int {
    match d
    case L => c.row
    case R => c.row
    case UL => c.row - 1
    case UR => c.row - 1
    case DL => Height - 2 - c.row
    case DR => Height - 2 - c.row
  }

  /** The scan-column index at which the scan for `d` visits `c`. */
  function OrdCol(c: Cell, d: Dir): int {
    match d
    case L => c.col - 1
    case R => Width - 2 - c.col
    case _ => c.col
  }

  /** `c` is already settled when step (i, j) starts: it is skipped, or an earlier step visited it. */
  predicate Before(c: Cell, d: Dir, i: int, j: int) {
    InBounds(c) && (Skipped(c, d) || OrdRow(c, d) < i || (OrdRow(c, d) == i && OrdCol(c, d) < j))
  }

  /** The tile at `c` cannot slide toward `d`: its neighbour there is off the board or occupied. */
  predicate Blocked(g: Grid, c: Cell, d: Dir) {
    !InBounds(Neighbor(c, d)) || TileAt(g, Neighbor(c, d)).Some?
  }

  /** No tile on the board can slide any further toward `d`. */
  ghost predicate Compact(g: Grid, d: Dir) {
    forall c :: TileAt(g, c).Some? ==> Blocked(g, c, d)
  }

  /** Every tile settled before step (i, j) is blocked. */
  ghost predicate SettledBefore(g: Grid, d: Dir, i: int, j: int) {
    forall c :: Before(c, d, i, j) && TileAt(g, c).Some? ==> Blocked(g, c, d)
  }

  /**
    While the tile at `cur` slides during step (i, j): every other settled
    tile is blocked, and none is blocked by `cur` itself (the one cell about
    to be emptied).
   */
  ghost predicate SlideInv(g: Grid, cur: Cell, d: Dir, i: int, j: int) {
    && Before(cur, d, i, j + 1)
    && forall c :: Before(c, d, i, j + 1) && c != cur && TileAt(g, c).Some? ==>
        Blocked(g, c, d) && Neighbor(c, d) != cur
  }

  /** Sliding never leaves the settled region: the neighbour of a settled cell is settled. */
  lemma BeforeClosed(c: Cell, d: Dir, i: int, j: int)
    requires Before(c, d, i, j) && InBounds(Neighbor(c, d))
    ensures Before(Neighbor(c, d), d, i, j)
  {
  }

  /** The scan visits each non-skipped cell at exactly one step. */
  lemma OrdInverse(c: Cell, d: Dir)
    requires InBounds(c) && !Skipped(c, d)
    ensures 0 <= OrdRow(c, d) < NRows(d) && 0 <= OrdCol(c, d) < NCols(d)
    ensures c == ScanCell(d, OrdRow(c, d), OrdCol(c, d))
  {
  }

  lemma ScanCellOrd(d: Dir, i: int, j: int)
    requires 0 <= i < NRows(d) && 0 <= j < NCols(d)
    ensures !Skipped(ScanCell(d, i, j), d)
    ensures OrdRow(ScanCell(d, i, j), d) == i && OrdCol(ScanCell(d, i, j), d) == j
  {
  }

  /** The cell of step (i, j) is settled after that step and not before it. */
  lemma StepBoundary(c: Cell, d: Dir, i: int, j: int)
    requires 0 <= i < NRows(d) && 0 <= j < NCols(d)
    ensures Before(c, d, i, j + 1) <==> Before(c, d, i, j) || c == ScanCell(d, i, j)
    ensures !Before(ScanCell(d, i, j), d, i, j)
  {
    ScanCellOrd(d, i, j);
    if InBounds(c) && !Skipped(c, d) {
      OrdInverse(c, d);
    }
  }

  lemma {:induction false} SlideSettles(s: Sweep, t: Tile, cur: Cell, d: Dir, i: int, j: int)
    requires WellShaped(s.grid) && InBounds(cur) && TileAt(s.grid, cur) == Some(t)
    requires SlideInv(s.grid, cur, d, i, j)
    ensures SettledBefore(Slide(s, t, cur, d).grid, d, i, j + 1)
    decreases Distance(cur, d)
  {
    var n := Neighbor(cur, d);
    if !InBounds(n) {
    } else if TileAt(s.grid, n).None? {
      MoveSettles(s, t, cur, d, i, j);
      SlideSettles(MoveStep(s, t, cur, n), Moved(t, n), n, d, i, j);
    } else if TileAt(s.grid, n).value.value == t.value && n !in s.merged {
      MergeSettles(s, t, cur, d, i, j);
    }
  }

  /** After a move into `n`, the invariant holds with `n` as the sliding cell. */
  lemma MoveSettles(s: Sweep, t: Tile, cur: Cell, d: Dir, i: int, j: int)
    requires WellShaped(s.grid) && InBounds(cur) && TileAt(s.grid, cur) == Some(t)
    requires SlideInv(s.grid, cur, d, i, j)
    requires InBounds(Neighbor(cur, d)) && TileAt(s.grid, Neighbor(cur, d)).None?
    ensures var n := Neighbor(cur, d);
      TileAt(MoveStep(s, t, cur, n).grid, n) == Some(Moved(t, n)) && SlideInv(MoveStep(s, t, cur, n).grid, n, d, i, j)
  {
    var g := s.grid;
    var n := Neighbor(cur, d);
    var g' := MoveStep(s, t, cur, n).grid;
    BeforeClosed(cur, d, i, j + 1);
    forall c | Before(c, d, i, j + 1) && c != n && TileAt(g', c).Some?
      ensures Blocked(g', c, d) && Neighbor(c, d) != n
    {
      PutPutFrame(g, n, Some(Moved(t, n)), cur, c);
      if Neighbor(c, d) != n && Neighbor(c, d) != cur && InBounds(Neighbor(c, d)) {
        PutPutFrame(g, n, Some(Moved(t, n)), cur, Neighbor(c, d));
      }
    }
  }

  /** After a merge into `n` every settled tile is blocked, `n` included. */
  lemma MergeSettles(s: Sweep, t: Tile, cur: Cell, d: Dir, i: int, j: int)
    requires WellShaped(s.grid) && InBounds(cur) && TileAt(s.grid, cur) == Some(t)
    requires SlideInv(s.grid, cur, d, i, j)
    requires InBounds(Neighbor(cur, d)) && TileAt(s.grid, Neighbor(cur, d)).Some?
    ensures var n := Neighbor(cur, d);
      SettledBefore(MergeStep(s, t, cur, n, TileAt(s.grid, n).value).grid, d, i, j + 1)
  {
    var g := s.grid;
    var n := Neighbor(cur, d);
    var x := Some(TileAt(g, n).value.(value := 2 * TileAt(g, n).value.value));
    var g' := MergeStep(s, t, cur, n, TileAt(g, n).value).grid;
    BeforeClosed(cur, d, i, j + 1);
    forall c | Before(c, d, i, j + 1) && TileAt(g', c).Some?
      ensures Blocked(g', c, d)
    {
      PutFrame(Put(g, n, x), cur, None, c);
      if c != n {
        PutFrame(g, n, x, c);
        var m := Neighbor(c, d);
        if InBounds(m) && m != n {
          PutPutFrame(g, n, x, cur, m);
        }
      } else if InBounds(Neighbor(n, d)) {
        assert Neighbor(n, d) != cur;
        PutPutFrame(g, n, x, cur, Neighbor(n, d));
      }
    }
  }

  lemma CellSettles(s: Sweep, d: Dir, i: int, j: int)
    requires WellShaped(s.grid)
    requires 0 <= i < NRows(d) && 0 <= j < NCols(d)
    requires SettledBefore(s.grid, d, i, j)
    ensures SettledBefore(ProcessCell(s, ScanCell(d, i, j), d).grid, d, i, j + 1)
  {
    var g := s.grid;
    var s0 := ScanCell(d, i, j);
    forall c | Before(c, d, i, j + 1) && c != s0
      ensures Before(c, d, i, j)
    {
      StepBoundary(c, d, i, j);
    }
    StepBoundary(s0, d, i, j);
    if TileAt(g, s0).Some? {
      forall c | Before(c, d, i, j + 1) && c != s0 && TileAt(g, c).Some?
        ensures Neighbor(c, d) != s0
      {
        if InBounds(Neighbor(c, d)) {
          BeforeClosed(c, d, i, j);
        }
      }
      SlideSettles(s, TileAt(g, s0).value, s0, d, i, j);
    }
  }

  lemma {:induction false} ColsSettle(s: Sweep, d: Dir, i: int, j: int)
    requires WellShaped(s.grid)
    requires 0 <= i < NRows(d) && 0 <= j <= NCols(d)
    requires SettledBefore(s.grid, d, i, 0)
    ensures SettledBefore(ColsDone(s, d, i, j).grid, d, i, j)
    decreases j
  {
    hide ProcessCell, Slide;
    if j > 0 {
      ColsSettle(s, d, i, j - 1);
      CellSettles(ColsDone(s, d, i, j - 1), d, i, j - 1);
    }
  }

  /** Finishing a scan row settles exactly what starting the next one needs. */
  lemma RowBoundary(g: Grid, d: Dir, i: int)
    requires 0 <= i < NRows(d)
    requires SettledBefore(g, d, i, NCols(d))
    ensures SettledBefore(g, d, i + 1, 0)
  {
    forall c | Before(c, d, i + 1, 0) && TileAt(g, c).Some?
      ensures Blocked(g, c, d)
    {
      if !Skipped(c, d) {
        OrdInverse(c, d);
      }
    }
  }

  lemma {:induction false} RowsSettle(s: Sweep, d: Dir, i: int)
    requires WellShaped(s.grid)
    requires 0 <= i <= NRows(d)
    requires SettledBefore(s.grid, d, 0, 0)
    ensures SettledBefore(RowsDone(s, d, i).grid, d, i, 0)
    decreases i
  {
    hide ProcessCell, Slide;
    if i > 0 {
      RowsSettle(s, d, i - 1);
      ColsSettle(RowsDone(s, d, i - 1), d, i - 1, NCols(d));
      RowBoundary(ColsDone(RowsDone(s, d, i - 1), d, i - 1, NCols(d)).grid, d, i - 1);
    }
  }

  /**
    After one call toward `d`, no tile can slide toward `d` any more: every
    tile's neighbour in that direction is off the board or occupied.
   */
  lemma SweepCompacts(g: Grid, score: int, d: Dir)
    requires WellShaped(g)
    ensures Compact(SweepBoard(g, score, d).grid, d)
  {
    forall c | Before(c, d, 0, 0)
      ensures !InBounds(Neighbor(c, d))
    {
      if !Skipped(c, d) {
        OrdInverse(c, d);
      }
    }
    RowsSettle(Fresh(g, score), d, NRows(d));
    var g' := SweepBoard(g, score, d).grid;
    forall c | TileAt(g', c).Some?
      ensures Blocked(g', c, d)
    {
      if !Skipped(c, d) {
        OrdInverse(c, d);
      }
    }
  }

  /** The same at the level of the game: a shift that is not refused leaves the board compact. */
  lemma ShiftCompacts(g: Game, d: Dir)
    requires WellShaped(g.grid) && !g.animating
    ensures Compact(Shift(g, d).next.grid, d)
  {
    SweepCompacts(g.grid, g.score, d);
  }
}
