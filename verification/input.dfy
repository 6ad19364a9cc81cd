/**
  `getIntent` and the move dispatch of the key handler: the held arrow keys
  name at most one direction, a diagonal combination taking priority over a
  single left or right key; up or down alone names nothing.
 */
module Input {
  import opened Wrappers
  import opened HexGrid
  import opened Engine
  import opened Routines

  /** Which of the four arrow keys are held. */
  datatype Keys = Keys(left: bool, right: bool, up: bool, down: bool)

  /** `getIntent`: the first matching combination, tested in the source's order. */
  function GetIntent(k: Keys): (o: Option<Dir>)
    ensures o.Some? ==> Holds(k, Press(o.value))
    ensures o.None? <==> !k.left && !k.right
  {
    if k.left && k.up then Some(UL)
    else if k.right && k.up then Some(UR)
    else if k.left && k.down then Some(DL)
    else if k.right && k.down then Some(DR)
    else if k.left then Some(L)
    else if k.right then Some(R)
    else None
  }

  /** The smallest key combination that names `d`. */
  function Press(d: Dir): Keys {
    match d
    case L => Keys(true, false, false, false)
    case R => Keys(false, true, false, false)
    case UL => Keys(true, false, true, false)
    case UR => Keys(false, true, true, false)
    case DL => Keys(true, false, false, true)
    case DR => Keys(false, true, false, true)
  }

  /** Every key of `p` is held in `k`. */
  predicate Holds(k: Keys, p: Keys) {
    (p.left ==> k.left) && (p.right ==> k.right) && (p.up ==> k.up) && (p.down ==> k.down)
  }

  /** The directions, most specific first, in the order the combinations are tried. */
  const Priority: seq<Dir> := [UL, UR, DL, DR, L, R]

  /** A reference reading of the key mapping: the first direction in `ds` whose combination is held. */
  function FirstHeld(k: Keys, ds: seq<Dir>): (o: Option<Dir>)
    ensures o.Some? ==> o.value in ds && Holds(k, Press(o.value))
    ensures o.None? ==> forall i :: 0 <= i < |ds| ==> !Holds(k, Press(ds[i]))
    decreases |ds|
  {
    if |ds| == 0 then None
    else if Holds(k, Press(ds[0])) then Some(ds[0])
    else FirstHeld(k, ds[1..])
  }

  /** The mapping picks the first direction, in priority order, whose keys are all held. */
  lemma IntentIsFirstHeld(k: Keys)
    ensures GetIntent(k) == FirstHeld(k, Priority)
  {
    assert Priority[1..] == [UR, DL, DR, L, R];
    assert Priority[1..][1..] == [DL, DR, L, R];
    assert Priority[1..][1..][1..] == [DR, L, R];
    assert Priority[1..][1..][1..][1..] == [L, R];
    assert Priority[1..][1..][1..][1..][1..] == [R];
  }

  /**
    Holding exactly the keys of a direction names that direction; a named
    direction has all its keys held; nothing is named exactly when neither
    left nor right is held.
   */
  lemma IntentSpec(k: Keys, d: Dir)
    ensures GetIntent(Press(d)) == Some(d)
    ensures GetIntent(k) == Some(d) ==> Holds(k, Press(d))
    ensures GetIntent(k).None? <==> !k.left && !k.right
  {
    IntentIsFirstHeld(k);
  }

  /** The position of a direction in `Priority`. */
  function Rank(d: Dir): (i: int)
    ensures 0 <= i < |Priority| && Priority[i] == d
  {
    match d
    case UL => 0
    case UR => 1
    case DL => 2
    case DR => 3
    case L => 4
    case R => 5
  }

  /** A direction is named only if no combination ahead of it in priority order is held as well. */
  lemma IntentPriority(k: Keys, d: Dir, e: Dir)
    requires GetIntent(k) == Some(d) && Holds(k, Press(e))
    ensures Rank(d) <= Rank(e)
  {
    match e
    case UL =>
    case UR =>
    case DL =>
    case DR =>
    case L =>
    case R =>
  }

  /**
    The timer callback of the key handler: no named direction, no move;
    otherwise the matching shift routine runs.
   */
  method Dispatch(g: Game, k: Keys) returns (moved: bool, next: Game)
    requires WellShaped(g.grid)
    ensures GetIntent(k).None? ==> !moved && next == g
    ensures GetIntent(k).Some? ==> ShiftResult(moved, next) == Shift(g, GetIntent(k).value)
  {
    var intent := GetIntent(k);
    if intent.None? {
      return false, g;
    }
    moved, next := Move(g, intent.value);
  }
}
