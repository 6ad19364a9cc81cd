/**
  The shift-and-merge engine: one parameterised `Shift` that covers the
  source's `shiftLeft`, `shiftRight` and `shiftDirectional`, built as the
  same three nested loops they use (scan rows, scan columns, slide one tile
  until it stops), written here as recursive functions, together with the
  accounting invariant one call keeps.
 */
module Engine {
  import opened Wrappers
  import opened HexGrid

  /**
    What one shift call threads through its loops: the board, the merge
    ledger (the cells whose `merged` entry is true), the score, the `moved`
    flag, and the tiles taken off the board by merges, in merge order.
   */
  datatype Sweep = Sweep(grid: Grid, merged: set<Cell>, score: int, moved: bool, removed: seq<Tile>)

  /** The state at the start of a call: fresh ledger, nothing moved. */
  function Fresh(g: Grid, score: int): Sweep {
    Sweep(g, {}, score, false, [])
  }

  /** How many more steps a tile at `c` can take toward direction `d`'s edge. */
  function Distance(c: Cell, d: Dir): int {
    match d
    case L => c.col
    case R => Width - 1 - c.col
    case UL => c.row
    case UR => c.row
    case DL => Height - 1 - c.row
    case DR => Height - 1 - c.row
  }

  /** A tile after sliding into cell `n`: its coordinates and target both become `n`. */
  function Moved(t: Tile, n: Cell): Tile {
    t.(row := n.row, col := n.col, targetRow := n.row, targetCol := n.col)
  }

  /** A tile absorbed by a merge into `n`: it keeps its coordinates, targets `n` and is due for removal. */
  function Absorbed(t: Tile, n: Cell): Tile {
    t.(targetRow := n.row, targetCol := n.col, willRemove := true)
  }

  /** The tile `t` at `cur` slides into the empty cell `n`. */
  function MoveStep(s: Sweep, t: Tile, cur: Cell, n: Cell): (s': Sweep)
    requires WellShaped(s.grid) && InBounds(cur) && InBounds(n)
    ensures WellShaped(s'.grid)
  {
    s.(grid := Put(Put(s.grid, n, Some(Moved(t, n))), cur, None), moved := true)
  }

  /**
    The tile `t` at `cur` merges into the equal tile `nb` at `n`: the
    neighbour doubles, the score gains the doubled value, the ledger marks
    `n`, and `t` leaves the board.
   */
  function MergeStep(s: Sweep, t: Tile, cur: Cell, n: Cell, nb: Tile): (s': Sweep)
    requires WellShaped(s.grid) && InBounds(cur) && InBounds(n)
    ensures WellShaped(s'.grid)
  {
    s.(grid := Put(Put(s.grid, n, Some(nb.(value := 2 * nb.value))), cur, None),
       score := s.score + 2 * nb.value,
       merged := s.merged + {n},
       moved := true,
       removed := s.removed + [Absorbed(t, n)])
  }

  /**
    The inner `while (true)` loop: advance the tile `t` standing at `cur`
    one neighbour at a time until the edge, a tile it cannot merge with, or
    its one merge stops it.
   */
  function Slide(s: Sweep, t: Tile, cur: Cell, d: Dir): (s': Sweep)
    requires WellShaped(s.grid) && InBounds(cur)
    ensures WellShaped(s'.grid)
    decreases Distance(cur, d)
  {
    var n := Neighbor(cur, d);
    if !InBounds(n) then s
    else match TileAt(s.grid, n)
      case None => Slide(MoveStep(s, t, cur, n), Moved(t, n), n, d)
      case Some(nb) =>
        if nb.value == t.value && n !in s.merged then MergeStep(s, t, cur, n, nb)
        else s
  }

  /** One step of the slide loop, unfolded: the three ways it can go. */
  lemma SlideUnfold(s: Sweep, t: Tile, cur: Cell, d: Dir)
    requires WellShaped(s.grid) && InBounds(cur)
    ensures var n := Neighbor(cur, d);
      && (!InBounds(n) ==> Slide(s, t, cur, d) == s)
      && (InBounds(n) && TileAt(s.grid, n).None? ==>
            Slide(s, t, cur, d) == Slide(MoveStep(s, t, cur, n), Moved(t, n), n, d))
      && (InBounds(n) && TileAt(s.grid, n).Some? ==>
            Slide(s, t, cur, d) ==
              if TileAt(s.grid, n).value.value == t.value && n !in s.merged
              then MergeStep(s, t, cur, n, TileAt(s.grid, n).value) else s)
  {
  }

  // ---------------------------------------------------------------------
  // Scan order. Step (i, j) of a call visits `ScanCell(d, i, j)`:
  //   L       rows 0..H-1, columns 1..W-1 ascending
  //   R       rows 0..H-1, columns W-2..0 descending
  //   UL, UR  rows 1..H-1 ascending, columns ascending
  //   DL, DR  rows H-2..0 descending, columns ascending

  function NRows(d: Dir): int {
    if d == L || d == R then Height else Height - 1
  }

  function NCols(d: Dir): int {
    if d == L || d == R then Width - 1 else Width
  }

  function RowAt(d: Dir, i: int): int {
    match d
    case L => i
    case R => i
    case UL => i + 1
    case UR => i + 1
    case DL => Height - 2 - i
    case DR => Height - 2 - i
  }

  function ColAt(d: Dir, j: int): int {
    match d
    case L => j + 1
    case R => Width - 2 - j
    case _ => j
  }

  function ScanCell(d: Dir, i: int, j: int): (c: Cell)
    requires 0 <= i < NRows(d) && 0 <= j < NCols(d)
    ensures InBounds(c)
  {
    Cell(RowAt(d, i), ColAt(d, j))
  }

  /** One iteration of the column loop: `if (!tile) continue;`, otherwise slide it. */
  function ProcessCell(s: Sweep, c: Cell, d: Dir): (s': Sweep)
    requires WellShaped(s.grid) && InBounds(c)
    ensures WellShaped(s'.grid)
  {
    match TileAt(s.grid, c)
    case None => s
    case Some(t) => Slide(s, t, c, d)
  }

  /** The column loop of scan row `i`, after its first `j` iterations. */
  function ColsDone(s: Sweep, d: Dir, i: int, j: int): (s': Sweep)
    requires WellShaped(s.grid)
    requires 0 <= i < NRows(d) && 0 <= j <= NCols(d)
    ensures WellShaped(s'.grid)
    decreases j
  {
    if j == 0 then s
    else ProcessCell(ColsDone(s, d, i, j - 1), ScanCell(d, i, j - 1), d)
  }

  /** The row loop after its first `i` iterations. */
  function RowsDone(s: Sweep, d: Dir, i: int): (s': Sweep)
    requires WellShaped(s.grid)
    requires 0 <= i <= NRows(d)
    ensures WellShaped(s'.grid)
    decreases i
  {
    if i == 0 then s
    else ColsDone(RowsDone(s, d, i - 1), d, i - 1, NCols(d))
  }

  /** All loops of one shift call, from a fresh ledger. */
  function SweepBoard(g: Grid, score: int, d: Dir): (s: Sweep)
    requires WellShaped(g)
    ensures WellShaped(s.grid)
  {
    RowsDone(Fresh(g, score), d, NRows(d))
  }

  // ---------------------------------------------------------------------
  // The game state and the shift operation

  /**
    The engine's state: the board, the score, the `animating` flag that
    locks out moves, the tiles absorbed by merges that stay in the `tiles`
    list until the animation settles, and the game-over flag.
   */
  datatype Game = Game(grid: Grid, score: int, animating: bool, pending: seq<Tile>, over: bool)

  datatype ShiftResult = ShiftResult(moved: bool, next: Game)

  /** The end of every shift routine: commit the call's result to the game state. */
  function Commit(g: Game, st: Sweep): Game {
    g.(grid := st.grid, score := st.score, animating := st.moved, pending := g.pending + st.removed)
  }

  /**
    `shiftLeft`, `shiftRight`, `shiftDirectional`: refused while an animation
    runs; otherwise all tiles slide toward `d` and the move starts an
    animation exactly when something moved.
   */
  function Shift(g: Game, d: Dir): (r: ShiftResult)
    requires WellShaped(g.grid)
    ensures WellShaped(r.next.grid)
    ensures g.animating ==> r == ShiftResult(false, g)
    ensures !r.moved ==> r.next == g
    ensures Sum(r.next.grid) == Sum(g.grid)
    ensures g.score <= r.next.score
    ensures r.moved ==> Count(r.next.grid) + |r.next.pending| == Count(g.grid) + |g.pending|
    ensures Valid(g.grid) ==> Valid(r.next.grid)
    ensures r.next.over == g.over
    ensures g.pending <= r.next.pending
    ensures !g.animating ==> r.next.score == g.score + 2 * Mass(r.next.pending[|g.pending|..])
  {
    if g.animating then ShiftResult(false, g)
    else
      var s := SweepBoard(g.grid, g.score, d);
      SweepSummary(g, d);
      assert (g.pending + s.removed)[|g.pending|..] == s.removed;
      ShiftResult(s.moved, Commit(g, s))
  }

  // ---------------------------------------------------------------------
  // The accounting invariant of one call

  function Target(p: Tile): Cell {
    Cell(p.targetRow, p.targetCol)
  }

  /** The sum of the values of a list of tiles. */
  function Mass(ps: seq<Tile>): int
    decreases |ps|
  {
    if |ps| == 0 then 0 else Mass(ps[..|ps| - 1]) + ps[|ps| - 1].value
  }

  /** `p` left the board by merging into the cell one step from where it stood. */
  predicate AbsorbedToward(p: Tile, d: Dir) {
    p.willRemove && InBounds(Cell(p.row, p.col)) && Target(p) == Neighbor(Cell(p.row, p.col), d)
  }

  /**
    What holds at every point of a call that started on board `g0` with
    score `score0`:
    - the sum of tile values never changes;
    - each absorbed tile took exactly one cell off the board;
    - the score grew by exactly the doubled values the merges produced;
    - every absorbed tile merged one step toward `d`, into a cell the ledger
      marks, and no two merged into the same cell;
    - tiles stay at rest where they are stored;
    - once something moved, some cell is empty;
    - while nothing moved, nothing changed.
   */
  ghost predicate Accounted(g0: Grid, score0: int, d: Dir, s: Sweep) {
    && WellShaped(s.grid)
    && Sum(s.grid) == Sum(g0)
    && Count(s.grid) + |s.removed| == Count(g0)
    && s.score == score0 + 2 * Mass(s.removed)
    && Ledger(s.merged, s.removed)
    && (Valid(g0) ==> Valid(s.grid) && AllAbsorbedToward(s.removed, d))
    && (s.moved ==> !Full(s.grid))
    && (!s.moved ==> s == Fresh(g0, score0))
  }

  /**
    The merge ledger against the absorbed tiles: one ledger cell per
    absorbed tile, each absorbed tile due for removal and aimed at a ledger
    cell, and no two aimed at the same cell.
   */
  ghost predicate Ledger(merged: set<Cell>, removed: seq<Tile>) {
    && |merged| == |removed|
    && (forall k :: 0 <= k < |removed| ==> removed[k].willRemove && Target(removed[k]) in merged)
    && (forall k, m :: 0 <= k < m < |removed| ==> Target(removed[k]) != Target(removed[m]))
  }

  ghost predicate AllAbsorbedToward(removed: seq<Tile>, d: Dir) {
    forall k :: 0 <= k < |removed| ==> AbsorbedToward(removed[k], d) && IsTileValue(removed[k].value)
  }

  /** Recording a merge into a cell the ledger does not mark keeps the ledger exact. */
  lemma LedgerRecord(merged: set<Cell>, removed: seq<Tile>, t: Tile, n: Cell)
    requires Ledger(merged, removed) && n !in merged
    ensures Ledger(merged + {n}, removed + [Absorbed(t, n)])
  {
    var removed' := removed + [Absorbed(t, n)];
    assert |merged + {n}| == |merged| + 1;
    forall k | 0 <= k < |removed'|
      ensures removed'[k].willRemove && Target(removed'[k]) in merged + {n}
    {
      if k < |removed| {
        assert removed'[k] == removed[k];
      }
    }
    forall k, m | 0 <= k < m < |removed'|
      ensures Target(removed'[k]) != Target(removed'[m])
    {
      if m == |removed| {
        assert Target(removed[k]) in merged;
      } else {
        assert removed'[k] == removed[k] && removed'[m] == removed[m];
      }
    }
  }

  lemma AbsorbedRecord(removed: seq<Tile>, d: Dir, t: Tile, cur: Cell)
    requires AllAbsorbedToward(removed, d)
    requires Resting(t, cur) && InBounds(cur)
    ensures AllAbsorbedToward(removed + [Absorbed(t, Neighbor(cur, d))], d)
  {
    var removed' := removed + [Absorbed(t, Neighbor(cur, d))];
    forall k | 0 <= k < |removed'|
      ensures AbsorbedToward(removed'[k], d) && IsTileValue(removed'[k].value)
    {
      if k < |removed| {
        assert removed'[k] == removed[k];
      }
    }
  }

  lemma MassAppend(ps: seq<Tile>, p: Tile)
    ensures Mass(ps + [p]) == Mass(ps) + p.value
  {
    assert (ps + [p])[..|ps|] == ps;
  }

  lemma MoveKeeps(g0: Grid, score0: int, d: Dir, s: Sweep, t: Tile, cur: Cell)
    requires Accounted(g0, score0, d, s)
    requires InBounds(cur) && TileAt(s.grid, cur) == Some(t)
    requires InBounds(Neighbor(cur, d)) && TileAt(s.grid, Neighbor(cur, d)) == None
    ensures Accounted(g0, score0, d, MoveStep(s, t, cur, Neighbor(cur, d)))
  {
    var n := Neighbor(cur, d);
    var x := Some(Moved(t, n));
    var g1 := Put(s.grid, n, x);
    var s' := MoveStep(s, t, cur, n);
    PutTotal(s.grid, n, x, Value);
    PutTotal(g1, cur, None, Value);
    PutTotal(s.grid, n, x, Occupancy);
    PutTotal(g1, cur, None, Occupancy);
    assert TileAt(s'.grid, cur) == None;
    if Valid(g0) {
      forall c | TileAt(s'.grid, c).Some?
        ensures Resting(TileAt(s'.grid, c).value, c)
      {
        if c != n {
          assert TileAt(s'.grid, c) == TileAt(s.grid, c);
        }
      }
    }
  }

  lemma MergeKeeps(g0: Grid, score0: int, d: Dir, s: Sweep, t: Tile, cur: Cell, nb: Tile)
    requires Accounted(g0, score0, d, s)
    requires InBounds(cur) && TileAt(s.grid, cur) == Some(t)
    requires InBounds(Neighbor(cur, d)) && TileAt(s.grid, Neighbor(cur, d)) == Some(nb)
    requires nb.value == t.value && Neighbor(cur, d) !in s.merged
    ensures Accounted(g0, score0, d, MergeStep(s, t, cur, Neighbor(cur, d), nb))
  {
    var n := Neighbor(cur, d);
    var s' := MergeStep(s, t, cur, n, nb);
    MergeTotals(s, t, cur, n, nb);
    MassAppend(s.removed, Absorbed(t, n));
    LedgerRecord(s.merged, s.removed, t, n);
    if Valid(g0) {
      MergeValid(s, t, cur, n, nb);
      AbsorbedRecord(s.removed, d, t, cur);
    }
  }

  /** A merge keeps the value sum and removes one tile from the board, emptying `cur`. */
  lemma MergeTotals(s: Sweep, t: Tile, cur: Cell, n: Cell, nb: Tile)
    requires WellShaped(s.grid) && InBounds(cur) && InBounds(n) && cur != n
    requires TileAt(s.grid, cur) == Some(t) && TileAt(s.grid, n) == Some(nb) && nb.value == t.value
    ensures Sum(MergeStep(s, t, cur, n, nb).grid) == Sum(s.grid)
    ensures Count(MergeStep(s, t, cur, n, nb).grid) == Count(s.grid) - 1
    ensures TileAt(MergeStep(s, t, cur, n, nb).grid, cur) == None
  {
    var x := Some(nb.(value := 2 * nb.value));
    var g1 := Put(s.grid, n, x);
    PutTotal(s.grid, n, x, Value);
    PutTotal(g1, cur, None, Value);
    PutTotal(s.grid, n, x, Occupancy);
    PutTotal(g1, cur, None, Occupancy);
  }

  /** A merge leaves every stored tile at rest: the doubled neighbour is still a tile value. */
  lemma MergeValid(s: Sweep, t: Tile, cur: Cell, n: Cell, nb: Tile)
    requires Valid(s.grid) && InBounds(cur) && InBounds(n)
    requires TileAt(s.grid, n) == Some(nb)
    ensures Valid(MergeStep(s, t, cur, n, nb).grid)
  {
    var g' := MergeStep(s, t, cur, n, nb).grid;
    DoubleTileValue(nb.value);
    forall c | TileAt(g', c).Some?
      ensures Resting(TileAt(g', c).value, c)
    {
      if c != n {
        assert TileAt(g', c) == TileAt(s.grid, c);
      }
    }
  }

  lemma {:induction false} SlideKeeps(g0: Grid, score0: int, d: Dir, s: Sweep, t: Tile, cur: Cell)
    requires Accounted(g0, score0, d, s)
    requires InBounds(cur) && TileAt(s.grid, cur) == Some(t)
    ensures Accounted(g0, score0, d, Slide(s, t, cur, d))
    decreases Distance(cur, d)
  {
    hide Sum, Count, MergeStep;
    var n := Neighbor(cur, d);
    if InBounds(n) {
      match TileAt(s.grid, n)
      case None =>
        MoveKeeps(g0, score0, d, s, t, cur);
        SlideKeeps(g0, score0, d, MoveStep(s, t, cur, n), Moved(t, n), n);
      case Some(nb) =>
        if nb.value == t.value && n !in s.merged {
          MergeKeeps(g0, score0, d, s, t, cur, nb);
        }
    }
  }

  lemma ProcessKeeps(g0: Grid, score0: int, d: Dir, s: Sweep, c: Cell)
    requires Accounted(g0, score0, d, s) && InBounds(c)
    ensures Accounted(g0, score0, d, ProcessCell(s, c, d))
  {
    if TileAt(s.grid, c).Some? {
      SlideKeeps(g0, score0, d, s, TileAt(s.grid, c).value, c);
    }
  }

  lemma {:induction false} ColsKeep(g0: Grid, score0: int, d: Dir, s: Sweep, i: int, j: int)
    requires Accounted(g0, score0, d, s)
    requires 0 <= i < NRows(d) && 0 <= j <= NCols(d)
    ensures Accounted(g0, score0, d, ColsDone(s, d, i, j))
    decreases j
  {
    hide ProcessCell, Slide, Sum, Count;
    if j > 0 {
      ColsKeep(g0, score0, d, s, i, j - 1);
      ProcessKeeps(g0, score0, d, ColsDone(s, d, i, j - 1), ScanCell(d, i, j - 1));
    }
  }

  lemma {:induction false} RowsKeep(g0: Grid, score0: int, d: Dir, s: Sweep, i: int)
    requires Accounted(g0, score0, d, s)
    requires 0 <= i <= NRows(d)
    ensures Accounted(g0, score0, d, RowsDone(s, d, i))
    decreases i
  {
    hide ProcessCell, Slide, Sum, Count;
    if i > 0 {
      RowsKeep(g0, score0, d, s, i - 1);
      ColsKeep(g0, score0, d, RowsDone(s, d, i - 1), i - 1, NCols(d));
    }
  }

  /** The facts `Shift`'s contract draws from the accounting invariant. */
  lemma SweepSummary(g: Game, d: Dir)
    requires WellShaped(g.grid)
    ensures var s := SweepBoard(g.grid, g.score, d);
      && (!s.moved ==> s.grid == g.grid && s.score == g.score && g.pending + s.removed == g.pending)
      && Sum(s.grid) == Sum(g.grid)
      && g.score <= s.score
      && s.score == g.score + 2 * Mass(s.removed)
      && Count(s.grid) + |g.pending + s.removed| == Count(g.grid) + |g.pending|
      && (Valid(g.grid) ==> Valid(s.grid))
  {
    hide RowsDone, ColsDone, ProcessCell, Slide;
    var s := SweepBoard(g.grid, g.score, d);
    SweepAccounted(g.grid, g.score, d);
    MassNonNegative(s.removed);
    if !s.moved {
      assert s.removed == [];
    }
  }

  lemma {:induction false} MassNonNegative(ps: seq<Tile>)
    ensures Mass(ps) >= 0
    decreases |ps|
  {
    if |ps| > 0 {
      MassNonNegative(ps[..|ps| - 1]);
    }
  }

  /** A whole call keeps the accounting invariant. */
  lemma SweepAccounted(g: Grid, score: int, d: Dir)
    requires WellShaped(g)
    ensures Accounted(g, score, d, SweepBoard(g, score, d))
  {
    RowsKeep(g, score, d, Fresh(g, score), NRows(d));
  }
}
