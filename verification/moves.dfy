/**
  Exactly when a shift does something: a call toward `d` moves iff some
  tile has, one step toward `d`, an on-board neighbour cell that is empty
  or holds an equal value. A call in which nothing can move leaves every
  scan state untouched; a call that ends with nothing moved saw no such tile.
 */
module Moves {
  import opened Wrappers
  import opened HexGrid
  import opened Engine
  import opened Compaction

  /**
    The tile at `c` has something to do in a shift toward `d`: its
    neighbour there is on the board and either empty or of equal value.
   */
  predicate CanMoveAt(g: Grid, c: Cell, d: Dir) {
    && TileAt(g, c).Some?
    && InBounds(Neighbor(c, d))
    && (TileAt(g, Neighbor(c, d)).None? || TileAt(g, Neighbor(c, d)).value.value == TileAt(g, c).value.value)
  }

  /** Some tile on the board has something to do in a shift toward `d`. */
  ghost predicate CanMove(g: Grid, d: Dir) {
    exists c :: CanMoveAt(g, c, d)
  }

  // ---------------------------------------------------------------------
  // Nothing movable: every step is the identity

  /** A cell whose tile cannot move leaves the state as it is. */
  lemma ProcessQuiet(s: Sweep, c: Cell, d: Dir)
    requires WellShaped(s.grid) && InBounds(c) && !CanMoveAt(s.grid, c, d)
    ensures ProcessCell(s, c, d) == s
  {
    if TileAt(s.grid, c).Some? {
      SlideUnfold(s, TileAt(s.grid, c).value, c, d);
    }
  }

  lemma {:induction false} ColsQuiet(s: Sweep, d: Dir, i: int, j: int)
    requires WellShaped(s.grid) && !CanMove(s.grid, d)
    requires 0 <= i < NRows(d) && 0 <= j <= NCols(d)
    ensures ColsDone(s, d, i, j) == s
    decreases j
  {
    hide Slide;
    if j > 0 {
      ColsQuiet(s, d, i, j - 1);
      ProcessQuiet(s, ScanCell(d, i, j - 1), d);
    }
  }

  lemma {:induction false} RowsQuiet(s: Sweep, d: Dir, i: int)
    requires WellShaped(s.grid) && !CanMove(s.grid, d)
    requires 0 <= i <= NRows(d)
    ensures RowsDone(s, d, i) == s
    decreases i
  {
    hide ProcessCell, Slide;
    if i > 0 {
      RowsQuiet(s, d, i - 1);
      ColsQuiet(s, d, i - 1, NCols(d));
    }
  }

  // ---------------------------------------------------------------------
  // Something movable: the call moves

  /** Once `moved` is set, no later step clears it. */
  lemma {:induction false} SlideStaysMoved(s: Sweep, t: Tile, cur: Cell, d: Dir)
    requires WellShaped(s.grid) && InBounds(cur) && s.moved
    ensures Slide(s, t, cur, d).moved
    decreases Distance(cur, d)
  {
    var n := Neighbor(cur, d);
    if InBounds(n) && TileAt(s.grid, n).None? {
      SlideStaysMoved(MoveStep(s, t, cur, n), Moved(t, n), n, d);
    }
  }

  /** A tile that can move does: the first step of its slide is a move or a merge. */
  lemma SlideFromFresh(g: Grid, score: int, c: Cell, d: Dir)
    requires WellShaped(g) && InBounds(c) && CanMoveAt(g, c, d)
    ensures ProcessCell(Fresh(g, score), c, d).moved
  {
    var s := Fresh(g, score);
    var t := TileAt(g, c).value;
    var n := Neighbor(c, d);
    SlideUnfold(s, t, c, d);
    if TileAt(g, n).None? {
      SlideStaysMoved(MoveStep(s, t, c, n), Moved(t, n), n, d);
    }
  }

  lemma ProcessStaysMoved(s: Sweep, c: Cell, d: Dir)
    requires WellShaped(s.grid) && InBounds(c) && s.moved
    ensures ProcessCell(s, c, d).moved
  {
    if TileAt(s.grid, c).Some? {
      SlideStaysMoved(s, TileAt(s.grid, c).value, c, d);
    }
  }

  /**
    While nothing has moved, the state is the fresh one and no tile the
    scan has already passed could have moved.
   */
  ghost predicate QuietSoFar(g: Grid, score: int, d: Dir, s: Sweep, i: int, j: int) {
    !s.moved ==> s == Fresh(g, score) && forall c :: Before(c, d, i, j) ==> !CanMoveAt(g, c, d)
  }

  lemma CellQuiet(g: Grid, score: int, d: Dir, s: Sweep, i: int, j: int)
    requires WellShaped(g) && WellShaped(s.grid)
    requires 0 <= i < NRows(d) && 0 <= j < NCols(d)
    requires QuietSoFar(g, score, d, s, i, j)
    ensures QuietSoFar(g, score, d, ProcessCell(s, ScanCell(d, i, j), d), i, j + 1)
  {
    hide Slide;
    var c0 := ScanCell(d, i, j);
    if s.moved {
      ProcessStaysMoved(s, c0, d);
    } else if CanMoveAt(g, c0, d) {
      SlideFromFresh(g, score, c0, d);
    } else {
      ProcessQuiet(s, c0, d);
      forall c | Before(c, d, i, j + 1)
        ensures !CanMoveAt(g, c, d)
      {
        StepBoundary(c, d, i, j);
      }
    }
  }

  lemma {:induction false} ColsQuietSoFar(g: Grid, score: int, d: Dir, s: Sweep, i: int, j: int)
    requires WellShaped(g) && WellShaped(s.grid)
    requires 0 <= i < NRows(d) && 0 <= j <= NCols(d)
    requires QuietSoFar(g, score, d, s, i, 0)
    ensures QuietSoFar(g, score, d, ColsDone(s, d, i, j), i, j)
    decreases j
  {
    hide ProcessCell, Slide;
    if j > 0 {
      ColsQuietSoFar(g, score, d, s, i, j - 1);
      CellQuiet(g, score, d, ColsDone(s, d, i, j - 1), i, j - 1);
    }
  }

  lemma {:induction false} RowsQuietSoFar(g: Grid, score: int, d: Dir, s: Sweep, i: int)
    requires WellShaped(g) && WellShaped(s.grid)
    requires 0 <= i <= NRows(d)
    requires QuietSoFar(g, score, d, s, 0, 0)
    ensures QuietSoFar(g, score, d, RowsDone(s, d, i), i, 0)
    decreases i
  {
    hide ProcessCell, Slide;
    if i > 0 {
      RowsQuietSoFar(g, score, d, s, i - 1);
      var s1 := ColsDone(RowsDone(s, d, i - 1), d, i - 1, NCols(d));
      ColsQuietSoFar(g, score, d, RowsDone(s, d, i - 1), i - 1, NCols(d));
      if !s1.moved {
        forall c | Before(c, d, i, 0)
          ensures Before(c, d, i - 1, NCols(d))
        {
          if !Skipped(c, d) {
            OrdInverse(c, d);
          }
        }
      }
    }
  }

  /** A whole call that ends with nothing moved saw no movable tile. */
  lemma SweepQuiet(g: Grid, score: int, d: Dir)
    requires WellShaped(g)
    ensures !SweepBoard(g, score, d).moved ==> !CanMove(g, d)
  {
    hide RowsDone, ColsDone, ProcessCell, Slide;
    forall c | Before(c, d, 0, 0)
      ensures !CanMoveAt(g, c, d)
    {
      if !Skipped(c, d) {
        OrdInverse(c, d);
      }
    }
    RowsQuietSoFar(g, score, d, Fresh(g, score), NRows(d));
    forall c | InBounds(c)
      ensures Before(c, d, NRows(d), 0)
    {
      if !Skipped(c, d) {
        OrdInverse(c, d);
      }
    }
  }

  /**
    A shift that is not refused moves something exactly when some tile can
    move toward `d`.
   */
  lemma ShiftMovesIff(g: Game, d: Dir)
    requires WellShaped(g.grid) && !g.animating
    ensures Shift(g, d).moved <==> CanMove(g.grid, d)
  {
    SweepQuiet(g.grid, g.score, d);
    if !CanMove(g.grid, d) {
      RowsQuiet(Fresh(g.grid, g.score), d, NRows(d));
    }
  }
}
