/**
  The Hexabine board: a fixed 4 x 4 array of cells in an odd-row-offset
  hexagonal layout, each cell holding at most one numbered tile, with the
  six-direction neighbour rule and the accessors the engine is built from.
 */
module HexGrid {
  import opened Wrappers

  /** `tileHeight` and `tileWidth` of the source. */
  const Height: int := 4
  const Width: int := 4

  /** The six move directions: left, right and the four diagonals. */
  datatype Dir = L | R | UL | UR | DL | DR

  /** A (row, col) coordinate; it may lie outside the board. */
  datatype Cell = Cell(row: int, col: int)

  /**
    A tile: its value, the cell it logically occupies, the cell its pending
    animation heads for, and whether it disappears once that animation ends
    (it was absorbed by a merge). Pixel position and the `moving` flag only
    drive rendering and are not part of the model.
   */
  datatype Tile = Tile(value: nat, row: int, col: int, targetRow: int, targetCol: int, willRemove: bool)

  /** `grid[row][col]`; `None` is an empty cell. */
  type Grid = seq<seq<Option<Tile>>>

  predicate InBounds(c: Cell) {
    0 <= c.row < Height && 0 <= c.col < Width
  }

  predicate WellShaped(g: Grid) {
    |g| == Height && forall r :: 0 <= r < Height ==> |g[r]| == Width
  }

  /**
    Row parity as the source computes it with `row % 2 === 0`. JavaScript's
    remainder truncates, Dafny's is Euclidean, but both give zero exactly on
    the even integers, negative ones included.
   */
  predicate EvenRow(row: int) {
    row % 2 == 0
  }

  /** `neighborForDir`: the cell one step from `c` in direction `d`. */
  function Neighbor(c: Cell, d: Dir): (n: Cell)
    ensures n != c
    ensures -1 <= n.row - c.row <= 1 && -1 <= n.col - c.col <= 1
    ensures (d == L || d == R) <==> n.row == c.row
  {
    match d
    case L => Cell(c.row, c.col - 1)
    case R => Cell(c.row, c.col + 1)
    case UL => Cell(c.row - 1, if EvenRow(c.row) then c.col - 1 else c.col)
    case UR => Cell(c.row - 1, if EvenRow(c.row) then c.col else c.col + 1)
    case DL => Cell(c.row + 1, if EvenRow(c.row) then c.col - 1 else c.col)
    case DR => Cell(c.row + 1, if EvenRow(c.row) then c.col else c.col + 1)
  }

  /** Axial hex coordinates, in which every direction is one fixed step. */
  datatype Axial = Axial(q: int, r: int)

  /** Converts an odd-r offset coordinate to axial coordinates. */
  function ToAxial(c: Cell): Axial {
    Axial(c.col - (c.row - c.row % 2) / 2, c.row)
  }

  /** The parity-free axial step of each direction. */
  function AxialStep(d: Dir): Axial {
    match d
    case L => Axial(-1, 0)
    case R => Axial(1, 0)
    case UL => Axial(0, -1)
    case UR => Axial(1, -1)
    case DL => Axial(-1, 1)
    case DR => Axial(0, 1)
  }

  function Opposite(d: Dir): Dir {
    match d
    case L => R
    case R => L
    case UL => DR
    case DR => UL
    case UR => DL
    case DL => UR
  }

  /**
    The parity table of the neighbour rule is exactly a translation by a
    constant axial vector: in axial coordinates no direction depends on the
    row's parity.
   */
  lemma NeighborIsAxialStep(c: Cell, d: Dir)
    ensures ToAxial(Neighbor(c, d)).q == ToAxial(c).q + AxialStep(d).q
    ensures ToAxial(Neighbor(c, d)).r == ToAxial(c).r + AxialStep(d).r
  {
    if c.row % 2 == 0 {
      assert (c.row + 1) % 2 == 1 && (c.row - 1) % 2 == 1;
    } else {
      assert (c.row + 1) % 2 == 0 && (c.row - 1) % 2 == 0;
    }
  }

  /** Axial coordinates determine the cell. */
  lemma ToAxialInjective(a: Cell, b: Cell)
    requires ToAxial(a) == ToAxial(b)
    ensures a == b
  {
  }

  /** Stepping one way and then the opposite way returns to the start. */
  lemma NeighborOpposite(c: Cell, d: Dir)
    ensures Neighbor(Neighbor(c, d), Opposite(d)) == c
  {
    var n := Neighbor(c, d);
    NeighborIsAxialStep(c, d);
    NeighborIsAxialStep(n, Opposite(d));
    ToAxialInjective(Neighbor(n, Opposite(d)), c);
  }

  /** The six neighbours of a cell are six different cells. */
  lemma NeighborsDistinct(c: Cell, d: Dir, e: Dir)
    requires d != e
    ensures Neighbor(c, d) != Neighbor(c, e)
  {
    NeighborIsAxialStep(c, d);
    NeighborIsAxialStep(c, e);
  }

  /**
    `getTileAt`: the content of a cell, `None` when the cell is empty or
    lies off the board.
   */
  function TileAt(g: Grid, c: Cell): (o: Option<Tile>)
    ensures o.Some? ==> InBounds(c)
    ensures WellShaped(g) && InBounds(c) ==> o == g[c.row][c.col]
  {
    if InBounds(c) && c.row < |g| && c.col < |g[c.row]| then g[c.row][c.col] else None
  }

  /** Writes one cell; every other cell keeps its content. */
  function Put(g: Grid, c: Cell, x: Option<Tile>): (g': Grid)
    requires WellShaped(g) && InBounds(c)
    ensures WellShaped(g')
    ensures TileAt(g', c) == x
  {
    g[c.row := g[c.row][c.col := x]]
  }

  /** Writing one cell leaves every other cell as it was. */
  lemma PutFrame(g: Grid, c: Cell, x: Option<Tile>, y: Cell)
    requires WellShaped(g) && InBounds(c) && y != c
    ensures TileAt(Put(g, c, x), y) == TileAt(g, y)
  {
  }

  /** Two writes, as a move or a merge makes them: the other cells keep their content. */
  lemma PutPutFrame(g: Grid, n: Cell, x: Option<Tile>, cur: Cell, y: Cell)
    requires WellShaped(g) && InBounds(n) && InBounds(cur) && y != n && y != cur
    ensures TileAt(Put(Put(g, n, x), cur, None), y) == TileAt(g, y)
  {
    PutFrame(g, n, x, y);
    PutFrame(Put(g, n, x), cur, None, y);
  }

  /** `clearGrid`: a board with every cell empty. */
  function ClearGrid(): (g: Grid)
    ensures WellShaped(g)
    ensures forall c :: TileAt(g, c) == None
  {
    seq(Height, _ => seq(Width, _ => None))
  }

  /** A freshly made tile: it sits at its cell and has nowhere else to go. */
  function NewTile(value: nat, c: Cell): Tile {
    Tile(value, c.row, c.col, c.row, c.col, false)
  }

  /** `makeTile`: places a new tile of the given value at `c`. */
  function MakeTile(g: Grid, value: nat, c: Cell): (g': Grid)
    requires WellShaped(g) && InBounds(c)
    ensures WellShaped(g')
    ensures TileAt(g', c).Some? && Resting(TileAt(g', c).value, c) == IsTileValue(value)
    ensures TileAt(g', c).value.value == value
    ensures forall y :: y != c ==> TileAt(g', y) == TileAt(g, y)
  {
    Put(g, c, Some(NewTile(value, c)))
  }

  /** 1, 2, 4, 8, ... */
  predicate IsPow2(n: nat)
    decreases n
  {
    n == 1 || (n >= 2 && n % 2 == 0 && IsPow2(n / 2))
  }

  /** Tile values are powers of two, at least 2: spawned as 2 or 4, only ever doubled. */
  predicate IsTileValue(v: nat) {
    v >= 2 && IsPow2(v)
  }

  lemma DoubleTileValue(v: nat)
    requires IsTileValue(v)
    ensures IsTileValue(2 * v)
  {
    assert (2 * v) / 2 == v;
  }

  /**
    A tile at rest in cell `c`: its coordinates and its target both name
    `c`, it is not due for removal, and its value is a tile value.
   */
  predicate Resting(t: Tile, c: Cell) {
    && t.row == c.row && t.col == c.col
    && t.targetRow == c.row && t.targetCol == c.col
    && !t.willRemove
    && IsTileValue(t.value)
  }

  /** The board invariant: every tile stored in the grid rests where it is stored. */
  ghost predicate Valid(g: Grid) {
    WellShaped(g) && forall c :: TileAt(g, c).Some? ==> Resting(TileAt(g, c).value, c)
  }

  /** No empty cell is left on the board. */
  ghost predicate Full(g: Grid) {
    forall c :: InBounds(c) ==> TileAt(g, c).Some?
  }

  // ---------------------------------------------------------------------
  // Totals over the board

  function RowTotal(row: seq<Option<Tile>>, f: Option<Tile> -> int): int
    decreases |row|
  {
    if |row| == 0 then 0 else f(row[0]) + RowTotal(row[1..], f)
  }

  function Total(g: Grid, f: Option<Tile> -> int): int
    decreases |g|
  {
    if |g| == 0 then 0 else RowTotal(g[0], f) + Total(g[1..], f)
  }

  function Value(o: Option<Tile>): int {
    if o.Some? then o.value.value else 0
  }

  function Occupancy(o: Option<Tile>): int {
    if o.Some? then 1 else 0
  }

  /** The sum of the values of all tiles on the board. */
  function Sum(g: Grid): int {
    Total(g, Value)
  }

  /** The number of occupied cells. */
  function Count(g: Grid): int {
    Total(g, Occupancy)
  }

  lemma {:induction false} RowTotalUpdate(row: seq<Option<Tile>>, i: int, x: Option<Tile>, f: Option<Tile> -> int)
    requires 0 <= i < |row|
    ensures RowTotal(row[i := x], f) == RowTotal(row, f) - f(row[i]) + f(x)
    decreases |row|
  {
    if i == 0 {
      assert row[i := x][1..] == row[1..];
    } else {
      assert row[i := x][1..] == row[1..][i - 1 := x];
      RowTotalUpdate(row[1..], i - 1, x, f);
    }
  }

  lemma {:induction false} TotalUpdate(g: Grid, r: int, row: seq<Option<Tile>>, f: Option<Tile> -> int)
    requires 0 <= r < |g|
    ensures Total(g[r := row], f) == Total(g, f) - RowTotal(g[r], f) + RowTotal(row, f)
    decreases |g|
  {
    if r == 0 {
      assert g[r := row][1..] == g[1..];
    } else {
      assert g[r := row][1..] == g[1..][r - 1 := row];
      TotalUpdate(g[1..], r - 1, row, f);
    }
  }

  /** Writing one cell changes a board total by the difference at that cell. */
  lemma PutTotal(g: Grid, c: Cell, x: Option<Tile>, f: Option<Tile> -> int)
    requires WellShaped(g) && InBounds(c)
    ensures Total(Put(g, c, x), f) == Total(g, f) - f(TileAt(g, c)) + f(x)
  {
    RowTotalUpdate(g[c.row], c.col, x, f);
    TotalUpdate(g, c.row, g[c.row][c.col := x], f);
  }

  lemma {:induction false} RowTotalOfEmpty(row: seq<Option<Tile>>, f: Option<Tile> -> int)
    requires f(None) == 0
    requires forall i :: 0 <= i < |row| ==> row[i] == None
    ensures RowTotal(row, f) == 0
    decreases |row|
  {
    if |row| > 0 {
      RowTotalOfEmpty(row[1..], f);
    }
  }

  lemma {:induction false} TotalOfEmpty(g: Grid, f: Option<Tile> -> int)
    requires f(None) == 0
    requires forall r, i :: 0 <= r < |g| && 0 <= i < |g[r]| ==> g[r][i] == None
    ensures Total(g, f) == 0
    decreases |g|
  {
    if |g| > 0 {
      RowTotalOfEmpty(g[0], f);
      assert forall r, i :: 0 <= r < |g[1..]| && 0 <= i < |g[1..][r]| ==> g[1..][r][i] == g[r + 1][i];
      TotalOfEmpty(g[1..], f);
    }
  }

  /** A cleared board holds no tile. */
  lemma ClearGridIsEmpty()
    ensures Count(ClearGrid()) == 0
    ensures Sum(ClearGrid()) == 0
    ensures Valid(ClearGrid())
  {
    TotalOfEmpty(ClearGrid(), Occupancy);
    TotalOfEmpty(ClearGrid(), Value);
  }
}
