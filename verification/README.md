# Hexabine tile engine in Dafny

This project models the tile-sliding engine of Hexabine. Hexabine is a browser puzzle that plays 2048 on a 4 × 4 board of hexagonal cells laid out in odd-row-offset rows. The model covers:

- the board and the six-direction neighbour rule (`neighborForDir`, `getTileAt`, `clearGrid`, `makeTile`);
- the three shift routines, `shiftLeft`, `shiftRight` and `shiftDirectional`, with its four wrappers;
- the game-over test `noMovesAvailable`;
- `spawnPiece` and `init`;
- the settle step at the end of `animate`;
- the key mapping `getIntent` and the move dispatch of the key handler.

All of it lives in `04-Open-Source-Games/Hexabine/hexabine-script.js`.

Files and modules:

- `wrappers.dfy` (`Wrappers`): `Option`.
- `hexgrid.dfy` (`HexGrid`): cells, tiles and the board. Also:
  - the neighbour rule, checked against axial hex coordinates;
  - cell reads and writes;
  - the board invariant `Valid`: every stored tile rests where it is stored;
  - tile count and value-sum totals.
- `engine.dfy` (`Engine`): one functional `Shift(g, d)` for all six directions.
  - The slide loop is the recursive `Slide`. The column and row loops are `ColsDone` and `RowsDone`, indexed so that each direction visits cells in exactly the order its source routine does.
  - The merge ledger is a set of cells.
  - The accounting invariant `Accounted` holds at every step of a call and is proved to do so.
- `compaction.dfy` (`Compaction`): after a call, no tile can slide further in that direction.
- `moves.dfy` (`Moves`): a shift moves exactly when some tile has an empty or equal neighbour on the board in that direction.
- `routines.dfy` (`Routines`): the source's three loop nests as imperative methods, each proved equal to `Shift`.
- `endgame.dfy` (`Endgame`): `noMovesAvailable`. It is proved equivalent to "the board is full and no shift in any direction would move".
- `spawn.dfy` (`Spawning`): the `empties` scan and `spawnPiece`.
- `lifecycle.dfy` (`Lifecycle`): `init`, the settle step, and a whole turn.
- `input.dfy` (`Input`): `getIntent` and the dispatch of a direction to its shift routine.
- `scenarios.dfy` (`Scenarios`): two concrete leftward shifts, computed step by step.

Modelling choices:

- A `Tile` keeps its value, its cell (`row`, `col`), its animation target (`targetRow`, `targetCol`) and `willRemove`. Pixel position and `moving` are left out.
- A `Game` holds the board, `score`, `animating`, the absorbed tiles still waiting in the `tiles` list (`pending`) and `gameover` (`over`).
- `Math.random` becomes parameters. `pick` is reduced modulo the number of empty cells, which yields every index that `Math.floor(Math.random() * n)` can produce. `four` stands for the draw that makes the new tile a 4.

A shift conserves the board's value sum. A merge doubles the neighbour (`hexabine-script.js` line 418) and clears the absorbed tile's cell at once (line 425); the absorbed tile stays only in the `tiles` list until its animation ends (lines 328-329). The model follows the code:

- `Sum` of the board is conserved by every shift.
- The absorbed tiles are tracked in `pending`, whose total is the extra `v` per merge.

## Model

| member | source | states |
|---|---|---|
| HexGrid.Neighbor | 04-Open-Source-Games/Hexabine/hexabine-script.js:359-368 | the neighbour is never the cell itself and lies within one row and one column of it; the row stays the same exactly for L and R |
| HexGrid.NeighborIsAxialStep | 04-Open-Source-Games/Hexabine/hexabine-script.js:359-368 | the even/odd-row column table is a fixed axial translation per direction, so no direction depends on row parity in axial coordinates |
| HexGrid.NeighborOpposite | 04-Open-Source-Games/Hexabine/hexabine-script.js:359-368 | one step in a direction and one step in the opposite direction return to the starting cell |
| HexGrid.NeighborsDistinct | 04-Open-Source-Games/Hexabine/hexabine-script.js:359-368 | the six neighbours of a cell are six different cells |
| HexGrid.TileAt | 04-Open-Source-Games/Hexabine/hexabine-script.js:112-115 | a lookup off the board finds nothing; on the board it returns the stored cell |
| HexGrid.ClearGrid | 04-Open-Source-Games/Hexabine/hexabine-script.js:100-103 | the cleared board is 4 × 4 and every cell is empty |
| HexGrid.ClearGridIsEmpty | 04-Open-Source-Games/Hexabine/hexabine-script.js:100-103 | a cleared board has no tiles, value sum 0, and satisfies the board invariant |
| HexGrid.MakeTile | 04-Open-Source-Games/Hexabine/hexabine-script.js:77-91 | the cell now holds a tile of the given value, resting where it is stored (when the value is a power of two of at least 2); every other cell is unchanged |
| Engine.Shift | 04-Open-Source-Games/Hexabine/hexabine-script.js:378-446 | one definition for `shiftLeft` (lines 378-446), `shiftRight` (lines 456-525) and `shiftDirectional` (lines 539-612): a call while animating is refused and changes nothing; a call that moves nothing leaves the game unchanged; the board's value sum is conserved; the score never decreases; tiles on the board plus pending tiles are conserved; the board invariant is kept; the game-over flag is untouched; the old pending tiles stay as a prefix of the new list; an accepted call's score is the old score plus twice the values of the newly absorbed tiles |
| Engine.SweepAccounted | 04-Open-Source-Games/Hexabine/hexabine-script.js:416-425 | after a whole call, all of these hold: the sum is conserved; tile count plus absorbed count is conserved; the score grew by exactly twice the absorbed values; each absorbed tile went into its own ledger cell, one step toward the direction; if something moved, some cell is empty; if nothing moved, nothing changed |
| Engine.RowsKeep | 04-Open-Source-Games/Hexabine/hexabine-script.js:386-438 | the row loop keeps the accounting invariant |
| Engine.ColsKeep | 04-Open-Source-Games/Hexabine/hexabine-script.js:387-437 | the column loop keeps the accounting invariant |
| Engine.ProcessKeeps | 04-Open-Source-Games/Hexabine/hexabine-script.js:388-390 | skipping an empty cell or sliding its tile keeps the accounting invariant |
| Engine.MoveStep | 04-Open-Source-Games/Hexabine/hexabine-script.js:400-413 | its own contract gives only a well-shaped board; what a step into an empty cell keeps is stated by `Engine.MoveKeeps` and `Compaction.MoveSettles` |
| Engine.MergeStep | 04-Open-Source-Games/Hexabine/hexabine-script.js:416-433 | its own contract gives only a well-shaped board; what a merge changes and keeps is stated by `Engine.MergeTotals`, `Engine.MergeValid`, `Engine.MergeKeeps` and `Compaction.MergeSettles` |
| Engine.Slide | 04-Open-Source-Games/Hexabine/hexabine-script.js:392-436 | its own contract gives only a well-shaped board after the whole `while (true)` loop; `Engine.SlideKeeps` states the accounting it keeps and `Compaction.SlideSettles` that the tile ends blocked |
| Engine.SlideKeeps | 04-Open-Source-Games/Hexabine/hexabine-script.js:392-436 | the whole slide of one tile keeps the accounting invariant |
| Engine.MoveKeeps | 04-Open-Source-Games/Hexabine/hexabine-script.js:400-413 | a step into an empty cell keeps the accounting invariant: sum, count, score, ledger, resting tiles and the room left behind |
| Engine.MergeKeeps | 04-Open-Source-Games/Hexabine/hexabine-script.js:416-433 | a merge into an equal tile whose cell is not in the ledger keeps the invariant |
| Engine.MergeTotals | 04-Open-Source-Games/Hexabine/hexabine-script.js:416-425 | a merge keeps the value sum, lowers the tile count by one and empties the absorbed tile's cell |
| Engine.MergeValid | 04-Open-Source-Games/Hexabine/hexabine-script.js:416-425 | after a merge, the doubled tile still rests where it is stored, with a power-of-two value |
| Engine.LedgerRecord | 04-Open-Source-Games/Hexabine/hexabine-script.js:416-422 | recording a merge into a cell not yet in the ledger keeps one ledger cell per absorbed tile, with no cell receiving two |
| Engine.AbsorbedRecord | 04-Open-Source-Games/Hexabine/hexabine-script.js:425-430 | appending a resting tile absorbed from its cell keeps every absorbed tile flagged for removal, standing on the board and aimed one step toward the direction, with a tile value |
| Compaction.ShiftCompacts | 04-Open-Source-Games/Hexabine/hexabine-script.js:378-446 | after an accepted shift, every tile's neighbour toward the direction is off the board or occupied |
| Compaction.SweepCompacts | 04-Open-Source-Games/Hexabine/hexabine-script.js:386-438 | after the loops of one call, no tile can slide further toward the direction |
| Compaction.RowsSettle | 04-Open-Source-Games/Hexabine/hexabine-script.js:386-438 | every tile in a row the scan has finished is blocked |
| Compaction.ColsSettle | 04-Open-Source-Games/Hexabine/hexabine-script.js:387-437 | every tile in a cell the scan has passed is blocked |
| Compaction.CellSettles | 04-Open-Source-Games/Hexabine/hexabine-script.js:388-436 | processing one cell leaves all earlier cells and that cell blocked |
| Compaction.SlideSettles | 04-Open-Source-Games/Hexabine/hexabine-script.js:392-436 | a tile slides until it is blocked, and it never unblocks a tile settled earlier |
| Compaction.MoveSettles | 04-Open-Source-Games/Hexabine/hexabine-script.js:400-413 | after one step into an empty cell, the slide invariant holds at the new cell |
| Compaction.MergeSettles | 04-Open-Source-Games/Hexabine/hexabine-script.js:416-435 | a merge ends the slide, and every settled tile is still blocked |
| Compaction.OrdInverse | 04-Open-Source-Games/Hexabine/hexabine-script.js:548-553 | for every direction (the column orders of lines 386-387 and 464-465 and the row orders of lines 548-553), each cell not on the target edge is visited at exactly one step of the scan |
| Compaction.ScanCellOrd | 04-Open-Source-Games/Hexabine/hexabine-script.js:548-553 | for every direction (the column orders of lines 386-387 and 464-465 and the row orders of lines 548-553), the cell of each scan step is off the target edge, and its step indices invert back to that step |
| Moves.ShiftMovesIff | 04-Open-Source-Games/Hexabine/hexabine-script.js:378-446 | an accepted shift reports a move exactly when some tile has an on-board neighbour toward the direction that is empty or of equal value |
| Moves.SweepQuiet | 04-Open-Source-Games/Hexabine/hexabine-script.js:441-446 | a call that ends with nothing moved found no movable tile |
| Moves.RowsQuiet | 04-Open-Source-Games/Hexabine/hexabine-script.js:386-438 | with no movable tile, the row loop changes nothing |
| Moves.ColsQuiet | 04-Open-Source-Games/Hexabine/hexabine-script.js:387-437 | with no movable tile, the column loop changes nothing |
| Moves.ProcessQuiet | 04-Open-Source-Games/Hexabine/hexabine-script.js:388-436 | a tile that cannot move leaves the state as it is |
| Moves.SlideFromFresh | 04-Open-Source-Games/Hexabine/hexabine-script.js:400-433 | a tile that can move does move or merge, and the call is marked moved |
| Moves.SlideStaysMoved | 04-Open-Source-Games/Hexabine/hexabine-script.js:392-436 | once `moved` is set, the rest of a slide keeps it set |
| Moves.ProcessStaysMoved | 04-Open-Source-Games/Hexabine/hexabine-script.js:388-436 | once `moved` is set, processing another cell keeps it set |
| Moves.CellQuiet | 04-Open-Source-Games/Hexabine/hexabine-script.js:388-436 | while nothing has moved, the state is the initial one and no cell passed so far could have moved |
| Moves.ColsQuietSoFar | 04-Open-Source-Games/Hexabine/hexabine-script.js:387-437 | the same, across the column loop |
| Moves.RowsQuietSoFar | 04-Open-Source-Games/Hexabine/hexabine-script.js:386-438 | the same, across the row loop |
| Routines.ShiftLeft | 04-Open-Source-Games/Hexabine/hexabine-script.js:378-446 | the imperative `shiftLeft` gives the same result and game as `Shift` toward L |
| Routines.SweepLeft | 04-Open-Source-Games/Hexabine/hexabine-script.js:386-438 | its row loop computes the functional sweep toward L |
| Routines.ScanRowLeft | 04-Open-Source-Games/Hexabine/hexabine-script.js:387-437 | its column loop, columns 1 to 3 ascending, computes the functional column loop |
| Routines.SlideLeft | 04-Open-Source-Games/Hexabine/hexabine-script.js:392-436 | its `while (true)` loop computes the functional slide |
| Routines.ShiftRight | 04-Open-Source-Games/Hexabine/hexabine-script.js:456-525 | the imperative `shiftRight` gives the same result and game as `Shift` toward R |
| Routines.SweepRight | 04-Open-Source-Games/Hexabine/hexabine-script.js:464-516 | its row loop computes the functional sweep toward R |
| Routines.ScanRowRight | 04-Open-Source-Games/Hexabine/hexabine-script.js:465-515 | its column loop, columns 2 down to 0, computes the functional column loop |
| Routines.SlideRight | 04-Open-Source-Games/Hexabine/hexabine-script.js:470-514 | its slide loop computes the functional slide |
| Routines.ShiftDirectional | 04-Open-Source-Games/Hexabine/hexabine-script.js:539-612 | for the four diagonals, `shiftDirectional` gives the same result and game as `Shift` |
| Routines.SweepDirectional | 04-Open-Source-Games/Hexabine/hexabine-script.js:548-603 | the start/end/step row loop computes the functional sweep |
| Routines.RowOrder | 04-Open-Source-Games/Hexabine/hexabine-script.js:548-552 | the row loop starts at row 1 (up) or 2 (down), steps by +1 or −1, and reaches its end row exactly after the last scan row |
| Routines.ScanRowDirectional | 04-Open-Source-Games/Hexabine/hexabine-script.js:553-602 | its column loop computes the functional column loop |
| Routines.SlideDirectional | 04-Open-Source-Games/Hexabine/hexabine-script.js:558-601 | its slide loop computes the functional slide |
| Routines.StepInto | 04-Open-Source-Games/Hexabine/hexabine-script.js:567-600 | one loop body continues exactly when the neighbour is empty (then a move step); otherwise it merges or stops |
| Routines.ShiftUpLeft | 04-Open-Source-Games/Hexabine/hexabine-script.js:535 | `shiftUpLeft` is `Shift` toward UL |
| Routines.ShiftUpRight | 04-Open-Source-Games/Hexabine/hexabine-script.js:536 | `shiftUpRight` is `Shift` toward UR |
| Routines.ShiftDownLeft | 04-Open-Source-Games/Hexabine/hexabine-script.js:537 | `shiftDownLeft` is `Shift` toward DL |
| Routines.ShiftDownRight | 04-Open-Source-Games/Hexabine/hexabine-script.js:538 | `shiftDownRight` is `Shift` toward DR |
| Routines.Move | 04-Open-Source-Games/Hexabine/hexabine-script.js:762-767 | dispatching a direction to its routine is `Shift` in that direction |
| Endgame.NoMovesAvailable | 04-Open-Source-Games/Hexabine/hexabine-script.js:623-645 | returns true exactly when every cell is occupied and no tile has an equal-valued tile as a neighbour in any of the six directions |
| Endgame.FilledIsFull | 04-Open-Source-Games/Hexabine/hexabine-script.js:625-629 | the row-and-column test for an empty cell used by the game-over check agrees with the cell-wise notion of a full board |
| Endgame.FindEmptyCell | 04-Open-Source-Games/Hexabine/hexabine-script.js:625-629 | finds an empty cell exactly when the board is not filled |
| Endgame.FindEqualPair | 04-Open-Source-Games/Hexabine/hexabine-script.js:633-643 | finds a pair exactly when some cell has an equal neighbour |
| Endgame.CellHasEqualNeighbor | 04-Open-Source-Games/Hexabine/hexabine-script.js:635-641 | an empty cell has none; an occupied cell has one exactly when one of its six neighbours, read through the off-board-safe lookup, holds the same value |
| Endgame.StuckIffNoShiftMoves | 04-Open-Source-Games/Hexabine/hexabine-script.js:623-645 | when no animation is running, the board is stuck exactly when it is full and no shift in any of the six directions would move |
| Spawning.EmptiesMembers | 04-Open-Source-Games/Hexabine/hexabine-script.js:264-275 | `empties` holds exactly the empty board cells, and it is empty exactly when the board is full |
| Spawning.EmptiesOrdered | 04-Open-Source-Games/Hexabine/hexabine-script.js:267-272 | `empties` lists cells in row-then-column order, with no repeats |
| Spawning.EmptiesAboveMembers | 04-Open-Source-Games/Hexabine/hexabine-script.js:267-272 | after the first rows of the scan, the list holds exactly the empty cells of those rows |
| Spawning.RowEmptiesMembers | 04-Open-Source-Games/Hexabine/hexabine-script.js:268-271 | within a row, the list gains exactly the empty cells passed so far |
| Spawning.CollectEmpties | 04-Open-Source-Games/Hexabine/hexabine-script.js:264-272 | the nested loops build the list of empty cells |
| Spawning.Spawn | 04-Open-Source-Games/Hexabine/hexabine-script.js:262-291 | its own contract gives only a well-shaped board; `Spawning.SpawnPlaced`, `Spawning.SpawnFrame`, `Spawning.SpawnTotals` and `Spawning.SpawnValid` state when it places a tile, where, and what it keeps |
| Spawning.SpawnValue | 04-Open-Source-Games/Hexabine/hexabine-script.js:284 | a new tile is a 2 or a 4, and so a valid tile value |
| Spawning.SpawnCell | 04-Open-Source-Games/Hexabine/hexabine-script.js:275-281 | there is no chosen cell exactly when the board is full; otherwise the chosen cell is on the board and empty |
| Spawning.SpawnPlaced | 04-Open-Source-Games/Hexabine/hexabine-script.js:275 | a spawn succeeds exactly when some cell is empty; a failed spawn leaves the board untouched |
| Spawning.SpawnFrame | 04-Open-Source-Games/Hexabine/hexabine-script.js:281-287 | the chosen cell, empty before, gets a new resting tile of the drawn value; every other cell is unchanged |
| Spawning.SpawnTotals | 04-Open-Source-Games/Hexabine/hexabine-script.js:262-291 | a successful spawn adds exactly one tile and its value; a failed one adds nothing |
| Spawning.SpawnValid | 04-Open-Source-Games/Hexabine/hexabine-script.js:287 | a spawn keeps every tile resting where it is stored |
| Spawning.SpawnReachesEvery | 04-Open-Source-Games/Hexabine/hexabine-script.js:277-284 | every empty cell, with either value, is a possible result of some random draw |
| Spawning.SpawnPiece | 04-Open-Source-Games/Hexabine/hexabine-script.js:262-291 | the looping `spawnPiece` agrees with the functional spawn |
| Lifecycle.InitSpec | 04-Open-Source-Games/Hexabine/hexabine-script.js:808-824 | a new game has exactly two resting tiles whose values are those drawn; score 0, nothing pending, game-over flag down, `animating` untouched |
| Lifecycle.Init | 04-Open-Source-Games/Hexabine/hexabine-script.js:808-824 | its own contract gives only a well-shaped board; `Lifecycle.InitSpec` states the two tiles, score 0, no pending tiles and the lowered flag |
| Lifecycle.FirstSpawn | 04-Open-Source-Games/Hexabine/hexabine-script.js:818 | the first spawn on a cleared board places one tile and leaves room for the second |
| Lifecycle.Settle | 04-Open-Source-Games/Hexabine/hexabine-script.js:340-348 | its own contract gives only a well-shaped board; `Lifecycle.SettleSpec` states the full effect |
| Lifecycle.SettleSpec | 04-Open-Source-Games/Hexabine/hexabine-script.js:340-348 | settling unlocks input, drops pending tiles and keeps the score; it adds one tile exactly when there is room, keeps the board invariant, and raises the game-over flag exactly when it was up or the board that results is stuck |
| Lifecycle.ShiftLeavesRoom | 04-Open-Source-Games/Hexabine/hexabine-script.js:400-433 | a shift that moved something leaves at least one empty cell |
| Lifecycle.TurnSpec | 04-Open-Source-Games/Hexabine/hexabine-script.js:340-348 | after a moving shift and its settle, one tile has been spawned, the value sum grew by exactly its value, and the game is over exactly when it already was or no direction can move |
| Input.GetIntent | 04-Open-Source-Games/Hexabine/hexabine-script.js:711-730 | a named direction has all its keys held, and nothing is named exactly when neither left nor right is held; `Input.IntentIsFirstHeld` states the full priority order |
| Input.IntentIsFirstHeld | 04-Open-Source-Games/Hexabine/hexabine-script.js:711-730 | the key mapping returns the first direction, in priority order UL, UR, DL, DR, L, R, whose keys are all held, or nothing |
| Input.IntentSpec | 04-Open-Source-Games/Hexabine/hexabine-script.js:711-730 | holding exactly a direction's keys names that direction; a named direction has all its keys held; nothing is named exactly when neither left nor right is held |
| Input.IntentPriority | 04-Open-Source-Games/Hexabine/hexabine-script.js:718-725 | no held combination comes before the named direction in priority order |
| Input.Dispatch | 04-Open-Source-Games/Hexabine/hexabine-script.js:756-767 | no named direction means no move and no change; otherwise the result is the shift in the named direction |
| Scenarios.ThreeInARow | 04-Open-Source-Games/Hexabine/hexabine-script.js:392-436 | three 2s in the top row shifted left give a 4 then a 2, with one merge and score 4 |
| Scenarios.LedgerStopsChain | 04-Open-Source-Games/Hexabine/hexabine-script.js:416-422 | `2 2 4 4` shifted left gives `4 8`: the 4 that slides next to the freshly merged 4 is stopped by the ledger |

## Left out

- Rendering is not modelled: `draw`, `drawHexagon`, `gridToPixel`, the colour table and `clamp`. They are canvas calls and floating-point geometry.
- The pixel easing of `animate` is not modelled: the per-frame `x`/`y` convergence, the tiles' `moving` flag and `requestAnimationFrame`. Only the final settle step is modelled, as `Lifecycle.Settle`.
  - Moved tiles already have their final `row`/`col` in the model, so committing targets at settle time is the identity.
  - Absorbed tiles leave with `pending`.
- The key listeners are not modelled: their `setTimeout` combo window, the `comboTimer`, the `inputConsumed` lock and the `keysPressed` bookkeeping are timer and event plumbing. Only `getIntent` and the dispatch that follows it are modelled.
- `gameOver`, `help` and `toggleDark` are not modelled. `gameOver` only sets the flag (modelled as `over`) and redraws. The source never consults the flag to refuse a move, and the model does not either.
- The 65 % / 35 % weighting of the spawned value is not modelled; it is a probability. The model takes the outcome as the parameter `four`.
- The `tiles` list is represented by the board plus `pending`. Its order matters only for drawing.
- `neighborForDir`'s final `return { r: row, c: col }` is not modelled. It is reachable only with a direction string outside the six, and `Dir` has exactly six values.
- The factored methods in `Routines`, `Endgame` and `Spawning` (one method per loop level) are not in the source. They split its single functions, in the same statement order, so that each loop gets its own contract.
- The rest of the repository is not modelled: WordWorms, Orbit, MyMetronome, the site scripts. It is DOM, canvas, audio and `fetch` code.
- Engine.Shift: its own contract does not state the merge ledger (one ledger cell per merge); that is stated by `Engine.SweepAccounted`.
