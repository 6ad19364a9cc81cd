/**
  A game from start to turn end: `init` clears the board and spawns two
  tiles; the end of a move's animation (`animate` once nothing is moving)
  drops the absorbed tiles, unlocks input, spawns a tile and raises the
  game-over flag when the board is stuck.
 */
module Lifecycle {
  import opened Wrappers
  import opened HexGrid
  import opened Engine
  import opened Endgame
  import opened Spawning

  /**
    `init`: score 0, a cleared board, no pending tiles, the game-over flag
    down, then two spawns. The `animating` flag is left as it was: `init`
    does not touch it.
   */
  function Init(g: Game, first: nat, firstFour: bool, second: nat, secondFour: bool): (g': Game)
    ensures WellShaped(g'.grid)
  {
    var one := Spawn(ClearGrid(), first, firstFour);
    var two := Spawn(one.grid, second, secondFour);
    Game(two.grid, 0, g.animating, [], false)
  }

  /** A cleared board has room, and so does a board with a single tile on it. */
  lemma ClearedHasRoom(c: Cell, v: nat)
    requires InBounds(c)
    ensures !Full(ClearGrid())
    ensures !Full(MakeTile(ClearGrid(), v, c))
  {
    var other := if c == Cell(0, 0) then Cell(0, 1) else Cell(0, 0);
    assert TileAt(MakeTile(ClearGrid(), v, c), other).None?;
  }

  /** The first spawn of `init` places one resting tile and leaves room for the second. */
  lemma FirstSpawn(first: nat, firstFour: bool)
    ensures var one := Spawn(ClearGrid(), first, firstFour);
      && Count(one.grid) == 1
      && Sum(one.grid) == SpawnValue(firstFour)
      && Valid(one.grid)
      && !Full(one.grid)
  {
    hide Full, Valid, Total, MakeTile;
    var one := Spawn(ClearGrid(), first, firstFour);
    ClearGridIsEmpty();
    SpawnPlaced(ClearGrid(), first, firstFour);
    SpawnTotals(ClearGrid(), first, firstFour);
    SpawnValid(ClearGrid(), first, firstFour);
    var c := SpawnCell(ClearGrid(), first).value;
    ClearedHasRoom(c, SpawnValue(firstFour));
    assert one.grid == MakeTile(ClearGrid(), SpawnValue(firstFour), c);
  }

  /**
    A new game holds exactly two resting tiles, each a 2 or a 4 as drawn,
    scores 0, has nothing pending and is not over.
   */
  lemma InitSpec(g: Game, first: nat, firstFour: bool, second: nat, secondFour: bool)
    ensures var g' := Init(g, first, firstFour, second, secondFour);
      && Count(g'.grid) == 2
      && Sum(g'.grid) == SpawnValue(firstFour) + SpawnValue(secondFour)
      && Valid(g'.grid)
      && g'.score == 0 && g'.pending == [] && !g'.over
      && g'.animating == g.animating
  {
    hide Full, Valid, Total, MakeTile, Spawn;
    var one := Spawn(ClearGrid(), first, firstFour);
    FirstSpawn(first, firstFour);
    SpawnPlaced(one.grid, second, secondFour);
    SpawnTotals(one.grid, second, secondFour);
    SpawnValid(one.grid, second, secondFour);
  }

  /**
    The end of a move's animation: absorbed tiles leave, input unlocks, a
    tile spawns, and the game is over once the board that results is stuck.
    The game-over flag is only ever raised here and lowered by `Init`.
   */
  function Settle(g: Game, pick: nat, four: bool): (g': Game)
    requires WellShaped(g.grid)
    ensures WellShaped(g'.grid)
  {
    var sp := Spawn(g.grid, pick, four);
    Game(sp.grid, g.score, false, [], g.over || Stuck(sp.grid))
  }

  /**
    Settling keeps the score, empties the pending list, unlocks input,
    adds one tile exactly when the board has room, keeps tiles at rest,
    and raises the flag exactly when it was up or the new board is stuck.
   */
  lemma SettleSpec(g: Game, pick: nat, four: bool)
    requires WellShaped(g.grid)
    ensures var g' := Settle(g, pick, four);
      && !g'.animating && g'.pending == [] && g'.score == g.score
      && Count(g'.grid) == Count(g.grid) + (if Full(g.grid) then 0 else 1)
      && (Valid(g.grid) ==> Valid(g'.grid))
      && (g'.over <==> g.over || Stuck(g'.grid))
  {
    SpawnPlaced(g.grid, pick, four);
    SpawnTotals(g.grid, pick, four);
    if Valid(g.grid) {
      SpawnValid(g.grid, pick, four);
    }
  }

  /** A shift that moved something left at least one cell empty. */
  lemma ShiftLeavesRoom(g: Game, d: Dir)
    requires WellShaped(g.grid)
    ensures Shift(g, d).moved ==> !Full(Shift(g, d).next.grid)
  {
    hide RowsDone, ColsDone, ProcessCell, Slide;
    if !g.animating {
      SweepAccounted(g.grid, g.score, d);
    }
  }

  /**
    A full turn: a shift that moved, then its settle. The spawn always
    succeeds, the value sum grows by the spawned value alone, and the game
    is over afterwards exactly when it already was or the new board is full
    with no direction that would move anything.
   */
  lemma TurnSpec(g: Game, d: Dir, pick: nat, four: bool)
    requires WellShaped(g.grid) && Shift(g, d).moved
    ensures var next := Shift(g, d).next;
      var g' := Settle(next, pick, four);
      && Count(g'.grid) == Count(next.grid) + 1
      && Sum(g'.grid) == Sum(g.grid) + SpawnValue(four)
      && g'.score == next.score
      && (g'.over <==> g.over || (Full(g'.grid) && forall e :: !Shift(g', e).moved))
  {
    var next := Shift(g, d).next;
    ShiftLeavesRoom(g, d);
    SettleSpec(next, pick, four);
    SpawnPlaced(next.grid, pick, four);
    SpawnTotals(next.grid, pick, four);
    var g' := Settle(next, pick, four);
    StuckIffNoShiftMoves(g');
  }
}
