/**
  Worked boards: leftward shifts of a single row, computed step by step
  through the scan: three equal tiles give one merge, and the merge ledger
  stops a tile from merging into a cell that already absorbed one.
 */
module Scenarios {
  import opened Wrappers
  import opened HexGrid
  import opened Engine
  import opened Moves

  /** A board whose top row holds the given values (0 for empty) and whose other rows are empty. */
  function TopRow(a: nat, b: nat, c: nat, e: nat): (g: Grid)
    ensures WellShaped(g)
  {
    var row := [At(a, 0), At(b, 1), At(c, 2), At(e, 3)];
    var empty: seq<Option<Tile>> := [None, None, None, None];
    [row, empty, empty, empty]
  }

  /** A new tile of value `v` in column `col` of the top row, or an empty cell for 0. */
  function At(v: nat, col: int): Option<Tile> {
    if v == 0 then None else Some(NewTile(v, Cell(0, col)))
  }

  /** Writing column `j` of the top row of such a board gives the board with that value replaced. */
  lemma PutTop(a: nat, b: nat, c: nat, e: nat, j: int, v: nat)
    requires 0 <= j < Width
    ensures Put(TopRow(a, b, c, e), Cell(0, j), At(v, j))
         == TopRow(if j == 0 then v else a, if j == 1 then v else b, if j == 2 then v else c, if j == 3 then v else e)
  {
    var g := TopRow(a, b, c, e);
    var g' := TopRow(if j == 0 then v else a, if j == 1 then v else b, if j == 2 then v else c, if j == 3 then v else e);
    assert g[0][j := At(v, j)] == g'[0];
    assert g[0 := g'[0]] == g';
  }

  /** The first row of a leftward call is done after its three columns; the other rows then change nothing. */
  lemma LeftSweepOfTopRow(g: Grid, score: int)
    requires WellShaped(g)
    requires !CanMove(ColsDone(Fresh(g, score), L, 0, NCols(L)).grid, L)
    ensures SweepBoard(g, score, L) == ColsDone(Fresh(g, score), L, 0, NCols(L))
  {
    hide ColsDone;
    var s := ColsDone(Fresh(g, score), L, 0, NCols(L));
    assert RowsDone(Fresh(g, score), L, 1) == s;
    ColsQuiet(s, L, 1, NCols(L));
    assert RowsDone(Fresh(g, score), L, 2) == s;
    ColsQuiet(s, L, 2, NCols(L));
    assert RowsDone(Fresh(g, score), L, 3) == s;
    ColsQuiet(s, L, 3, NCols(L));
  }

  /** A top row `[4, 2, _, _]` or `[4, 8, _, _]` has nothing left to do toward the left. */
  lemma SettledLeft(a: nat, b: nat)
    requires a != b && a != 0 && b != 0
    ensures !CanMove(TopRow(a, b, 0, 0), L)
  {
    forall c
      ensures !CanMoveAt(TopRow(a, b, 0, 0), c, L)
    {
    }
  }

  const C00 := Cell(0, 0)
  const C01 := Cell(0, 1)
  const C02 := Cell(0, 2)
  const C03 := Cell(0, 3)

  /** [2, 2, 2, _]: column 1 merges into column 0. */
  lemma ThreeStep1()
    ensures ProcessCell(Fresh(TopRow(2, 2, 2, 0), 0), C01, L)
         == Sweep(TopRow(4, 0, 2, 0), {C00}, 4, true, [Absorbed(NewTile(2, C01), C00)])
  {
    var s := Fresh(TopRow(2, 2, 2, 0), 0);
    SlideUnfold(s, NewTile(2, C01), C01, L);
    PutTop(2, 2, 2, 0, 0, 4);
    PutTop(4, 2, 2, 0, 1, 0);
  }

  /** [4, _, 2, _]: column 2 slides into column 1 and stops at the 4. */
  lemma ThreeStep2(s: Sweep)
    requires s.grid == TopRow(4, 0, 2, 0)
    ensures ProcessCell(s, C02, L) == s.(grid := TopRow(4, 2, 0, 0), moved := true)
  {
    SlideUnfold(s, NewTile(2, C02), C02, L);
    var s1 := MoveStep(s, NewTile(2, C02), C02, C01);
    PutTop(4, 0, 2, 0, 1, 2);
    PutTop(4, 2, 2, 0, 2, 0);
    assert s1.grid == TopRow(4, 2, 0, 0);
    SlideUnfold(s1, NewTile(2, C01), C01, L);
  }

  /** Three equal tiles: the first pair merges, the third slides up to the result and stops. */
  lemma ThreeInARow()
    ensures var s := SweepBoard(TopRow(2, 2, 2, 0), 0, L);
      && s.grid == TopRow(4, 2, 0, 0)
      && s.score == 4
      && s.merged == {C00}
      && s.removed == [Absorbed(NewTile(2, C01), C00)]
  {
    var s0 := Fresh(TopRow(2, 2, 2, 0), 0);
    ThreeStep1();
    var s1 := ColsDone(s0, L, 0, 1);
    ThreeStep2(s1);
    var s2 := ColsDone(s0, L, 0, 2);
    assert ColsDone(s0, L, 0, 3) == s2;
    SettledLeft(4, 2);
    LeftSweepOfTopRow(TopRow(2, 2, 2, 0), 0);
  }

  /** [2, 2, 4, 4]: column 1 merges into column 0. */
  lemma ChainStep1()
    ensures ProcessCell(Fresh(TopRow(2, 2, 4, 4), 0), C01, L)
         == Sweep(TopRow(4, 0, 4, 4), {C00}, 4, true, [Absorbed(NewTile(2, C01), C00)])
  {
    var s := Fresh(TopRow(2, 2, 4, 4), 0);
    SlideUnfold(s, NewTile(2, C01), C01, L);
    PutTop(2, 2, 4, 4, 0, 4);
    PutTop(4, 2, 4, 4, 1, 0);
  }

  /** [4*, _, 4, 4] with column 0 already merged: column 2 slides next to it and stops. */
  lemma ChainStep2(s: Sweep)
    requires s.grid == TopRow(4, 0, 4, 4) && s.merged == {C00}
    ensures ProcessCell(s, C02, L) == s.(grid := TopRow(4, 4, 0, 4), moved := true)
  {
    SlideUnfold(s, NewTile(4, C02), C02, L);
    var s1 := MoveStep(s, NewTile(4, C02), C02, C01);
    PutTop(4, 0, 4, 4, 1, 4);
    PutTop(4, 4, 4, 4, 2, 0);
    assert s1.grid == TopRow(4, 4, 0, 4);
    SlideUnfold(s1, NewTile(4, C01), C01, L);
  }

  /** [4*, 4, _, 4]: column 3 slides one cell and merges into column 1. */
  lemma ChainStep3(s: Sweep)
    requires s.grid == TopRow(4, 4, 0, 4) && s.merged == {C00}
    ensures ProcessCell(s, C03, L)
         == s.(grid := TopRow(4, 8, 0, 0), score := s.score + 8, merged := {C00, C01}, moved := true,
               removed := s.removed + [Absorbed(NewTile(4, C02), C01)])
  {
    SlideUnfold(s, NewTile(4, C03), C03, L);
    var s1 := MoveStep(s, NewTile(4, C03), C03, C02);
    PutTop(4, 4, 0, 4, 2, 4);
    PutTop(4, 4, 4, 4, 3, 0);
    assert s1.grid == TopRow(4, 4, 4, 0);
    SlideUnfold(s1, NewTile(4, C02), C02, L);
    PutTop(4, 4, 4, 0, 1, 8);
    PutTop(4, 8, 4, 0, 2, 0);
  }

  /**
    The ledger at work: after the first pair merges into column 0, the 4
    that slides next to it stops although the values match, and merges
    with the following 4 instead: two merges, into two different cells.
   */
  lemma LedgerStopsChain()
    ensures var s := SweepBoard(TopRow(2, 2, 4, 4), 0, L);
      && s.grid == TopRow(4, 8, 0, 0)
      && s.score == 12
      && s.merged == {C00, C01}
      && s.removed == [Absorbed(NewTile(2, C01), C00), Absorbed(NewTile(4, C02), C01)]
  {
    var s0 := Fresh(TopRow(2, 2, 4, 4), 0);
    ChainStep1();
    ChainStep2(ColsDone(s0, L, 0, 1));
    ChainStep3(ColsDone(s0, L, 0, 2));
    SettledLeft(4, 8);
    LeftSweepOfTopRow(TopRow(2, 2, 4, 4), 0);
  }
}
