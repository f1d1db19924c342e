/**
 * The game engine: the rules that drive one player's game.  The engine
 * state is first described as a value (`EngineState`) with one pure
 * transition function per action; the `GameEngine` class of module
 * `Game` updates its fields in place and each of its methods is proved
 * to perform the matching transition.  Wall-clock time is an integer count of
 * milliseconds passed in by the caller, and the random choice of piece
 * kinds is an `oracle` function indexed by the number of draws so far.
 */
module Engine {
  import opened Wrappers
  import opened Pieces
  import opened Playfield
  import opened Json

  /** Grace period, in milliseconds, before a resting piece locks. */
  const LockDelay: int := 500
  /** Spawn position: horizontally centred at the top. */
  const SpawnX: int := Width / 2 - 2
  const SpawnY: int := 0
  /** Wall-kick probes, tried in this order after a blocked rotation. */
  const Kicks: seq<Offset> := [(1, 0), (-1, 0), (0, -1), (2, 0), (-2, 0)]

  /** Base points for clearing `lines` rows at once; 0 for any other count. */
  function BaseScore(lines: int): (points: nat)
    ensures points > 0 <==> 1 <= lines <= 4
  {
    if lines == 1 then 100
    else if lines == 2 then 300
    else if lines == 3 then 500
    else if lines == 4 then 800
    else 0
  }

  /** Points awarded for a lock that clears `lines` rows. */
  function Award(lines: int, combo: int, level: int): int
  {
    (BaseScore(lines) + combo * 50) * level
  }

  /** Milliseconds between automatic one-row drops at `level`. */
  function DropInterval(level: int): (ms: int)
    ensures ms >= 100
    ensures level >= 1 ==> ms <= 1000
    ensures ms == 100 <==> level >= 10
  {
    var slowed := 1000 - (level - 1) * 100;
    if slowed < 100 then 100 else slowed
  }

  /** The piece under the player's control. */
  datatype Falling = Falling(kind: Kind, rotation: Rotation)

  function CellsOf(f: Falling): (cells: seq<Offset>)
    ensures IsPieceCells(cells)
  {
    OccupiedCells(f.kind, f.rotation)
  }

  datatype EngineState = EngineState(
    grid: Grid,
    score: int,
    lines: int,
    level: int,
    combo: int,
    gameOver: bool,
    paused: bool,
    current: Option<Falling>,
    x: int,
    y: int,
    next: seq<Kind>,
    hold: Option<Kind>,
    canHold: bool,
    lastDrop: int,
    lockTimer: Option<int>,
    draws: nat)

  /** What every reachable state satisfies. */
  predicate Good(s: EngineState)
  {
    && IsGrid(s.grid)
    && s.current.Some?
    && |s.next| == 2
    && s.lines >= 0
    && s.score >= 0
    && s.combo >= 0
    && s.level == s.lines / 10 + 1
  }

  /** Player actions are accepted only while this holds. */
  predicate Live(s: EngineState)
  {
    !s.gameOver && !s.paused && s.current.Some?
  }

  /** The falling piece sits in a valid position, unless the game is over. */
  predicate Legal(s: EngineState)
    requires IsGrid(s.grid)
  {
    s.gameOver || (s.current.Some? && Fits(s.grid, CellsOf(s.current.value), s.x, s.y))
  }

  // ---------------------------------------------------------------------
  // Piece queue and spawning

  /** Tops the queue `q` up to two kinds, drawing from `oracle` from index `d` on. */
  function Refill(q: seq<Kind>, d: nat, oracle: nat -> Kind): (r: (seq<Kind>, nat))
    ensures |r.0| == if |q| < 2 then 2 else |q|
    ensures r.1 == d + (|r.0| - |q|)
  {
    if |q| >= 2 then (q, d)
    else if |q| == 1 then (q + [oracle(d)], d + 1)
    else ([oracle(d), oracle(d + 1)], d + 2)
  }

  /** Refilling keeps the queue's kinds in order and appends the next draws. */
  lemma RefillSpec(q: seq<Kind>, d: nat, oracle: nat -> Kind)
    ensures var r := Refill(q, d, oracle);
      && r.0[..|q|] == q
      && forall i :: |q| <= i < |r.0| ==> r.0[i] == oracle(d + (i - |q|))
  {
  }

  /** The first half of a spawn: refill an empty queue, then pop its head as the falling piece. */
  function Popped(s: EngineState, oracle: nat -> Kind): (t: EngineState)
  {
    var r1 := if s.next == [] then Refill(s.next, s.draws, oracle) else (s.next, s.draws);
    s.(current := Some(Falling(r1.0[0], 0)), next := r1.0[1..], draws := r1.1)
  }

  /** `_fill_piece_queue`: top the queue up to two kinds. */
  function Requeued(s: EngineState, oracle: nat -> Kind): (t: EngineState)
  {
    var r := Refill(s.next, s.draws, oracle);
    s.(next := r.0, draws := r.1)
  }

  /** The end of a spawn: the spawn position, and game over if the piece does not fit there. */
  function Positioned(s: EngineState): (t: EngineState)
    requires IsGrid(s.grid) && s.current.Some?
  {
    s.(x := SpawnX, y := SpawnY,
       gameOver := s.gameOver || !Fits(s.grid, CellsOf(s.current.value), SpawnX, SpawnY),
       canHold := true, lockTimer := None)
  }

  /**
   * Spawning: the queue head becomes the falling piece, the queue is
   * refilled, and the piece is put at the spawn position; the game is
   * over if it does not fit there.
   */
  function Spawned(s: EngineState, oracle: nat -> Kind): (t: EngineState)
    requires IsGrid(s.grid)
  {
    Positioned(Requeued(Popped(s, oracle), oracle))
  }

  /** A freshly constructed (or reset) engine before its first spawn. */
  function Blank(now: int, draws: nat): EngineState
  {
    EngineState(EmptyGrid(), 0, 0, 1, 0, false, false, None, 0, 0, [], None, true, now, None, draws)
  }

  function Started(now: int, draws: nat, oracle: nat -> Kind): EngineState
  {
    Spawned(Requeued(Blank(now, draws), oracle), oracle)
  }

  // ---------------------------------------------------------------------
  // Moves and rotations

  function MovedSideways(s: EngineState, dx: int): EngineState
    requires IsGrid(s.grid)
  {
    if Live(s) && Fits(s.grid, CellsOf(s.current.value), s.x + dx, s.y) then s.(x := s.x + dx) else s
  }

  /** A soft drop at time `now`: one row down, or start the lock timer. */
  function MovedDown(s: EngineState, now: int): EngineState
    requires IsGrid(s.grid)
  {
    if !Live(s) then s
    else if Fits(s.grid, CellsOf(s.current.value), s.x, s.y + 1) then s.(y := s.y + 1, lockTimer := None)
    else if s.lockTimer.None? then s.(lockTimer := Some(now))
    else s
  }

  /** Whether `cells` fit around (x, y) shifted by kick probe `i`. */
  predicate KickFits(g: Grid, cells: seq<Offset>, x: int, y: int, i: int)
    requires IsGrid(g) && 0 <= i < |Kicks|
  {
    Fits(g, cells, x + Kicks[i].0, y + Kicks[i].1)
  }

  /** Index of the first kick probe, from `from` on, at which `cells` fit; `|Kicks|` if none does. */
  function FirstKick(g: Grid, cells: seq<Offset>, x: int, y: int, from: nat): (i: nat)
    requires IsGrid(g) && from <= |Kicks|
    ensures from <= i <= |Kicks|
    decreases |Kicks| - from
  {
    if from == |Kicks| then from
    else if KickFits(g, cells, x, y, from) then from
    else FirstKick(g, cells, x, y, from + 1)
  }

  /** The probe `FirstKick` selects fits, and no probe before it does. */
  lemma {:induction false} FirstKickSpec(g: Grid, cells: seq<Offset>, x: int, y: int, from: nat)
    requires IsGrid(g) && from <= |Kicks|
    ensures var i := FirstKick(g, cells, x, y, from);
      && (i < |Kicks| ==> KickFits(g, cells, x, y, i))
      && forall j :: from <= j < i ==> !KickFits(g, cells, x, y, j)
    decreases |Kicks| - from
  {
    if from < |Kicks| && !KickFits(g, cells, x, y, from) {
      FirstKickSpec(g, cells, x, y, from + 1);
    }
  }

  /** The first fitting probe is `i` when no earlier probe fits and `i` fits or is past the end. */
  lemma FirstKickIs(g: Grid, cells: seq<Offset>, x: int, y: int, i: nat)
    requires IsGrid(g) && i <= |Kicks|
    requires forall j :: 0 <= j < i ==> !KickFits(g, cells, x, y, j)
    requires i < |Kicks| ==> KickFits(g, cells, x, y, i)
    ensures FirstKick(g, cells, x, y, 0) == i
  {
    FirstKickSpec(g, cells, x, y, 0);
  }

  /** The shift that makes orientation `r` of the falling piece fit, if any. */
  function TurnShift(s: EngineState, r: Rotation): Option<Offset>
    requires IsGrid(s.grid) && s.current.Some?
  {
    KickShift(s.grid, OccupiedCells(s.current.value.kind, r), s.x, s.y)
  }

  /** The shift that makes `cells` fit at (x, y): none if it fits in place, else the first fitting probe. */
  function KickShift(g: Grid, cells: seq<Offset>, x: int, y: int): Option<Offset>
    requires IsGrid(g)
  {
    if Fits(g, cells, x, y) then Some((0, 0))
    else
      var i := FirstKick(g, cells, x, y, 0);
      if i < |Kicks| then Some(Kicks[i]) else None
  }

  /** Turning the falling piece to orientation `r`, kicked if necessary. */
  function TurnedTo(s: EngineState, r: Rotation): EngineState
    requires IsGrid(s.grid) && s.current.Some?
  {
    match TurnShift(s, r)
    case None => s
    case Some(o) => s.(current := Some(Falling(s.current.value.kind, r)), x := s.x + o.0, y := s.y + o.1)
  }

  function Turned(s: EngineState, clockwise: bool): EngineState
    requires IsGrid(s.grid)
  {
    if !Live(s) then s
    else
      var r := s.current.value.rotation;
      TurnedTo(s, if clockwise then Clockwise(r) else CounterClockwise(r))
  }

  // ---------------------------------------------------------------------
  // Holding, locking, scoring

  function Held(s: EngineState, oracle: nat -> Kind): EngineState
    requires IsGrid(s.grid)
  {
    if !Live(s) || !s.canHold then s
    else
      var k := s.current.value.kind;
      if s.hold.None? then Spawned(s.(hold := Some(k)), oracle).(canHold := false)
      else s.(hold := Some(k), current := Some(Falling(s.hold.value, 0)), x := SpawnX, y := SpawnY, canHold := false)
  }

  /** Points, lines and level after a lock that cleared `n` rows. */
  function Scored(s: EngineState, n: int): EngineState
  {
    var total := s.lines + n;
    s.(score := s.score + Award(n, s.combo, s.level),
       lines := total,
       level := if total / 10 + 1 > s.level then total / 10 + 1 else s.level)
  }

  /** The falling piece fused into the grid at its current position. */
  function Fused(s: EngineState): (g: Grid)
    requires IsGrid(s.grid) && s.current.Some?
    ensures IsGrid(g)
  {
    Place(s.grid, CellsOf(s.current.value), s.x, s.y, ColorOf(s.current.value.kind))
  }

  /**
   * The first half of locking: fuse the piece, clear the full rows, and
   * score them (raising the combo), or reset the combo if none was full.
   */
  function Settled(s: EngineState): (t: EngineState)
    requires IsGrid(s.grid) && s.current.Some?
    ensures IsGrid(t.grid)
  {
    SettledOn(s, Fused(s))
  }

  /** Settling once the piece has been fused into `placed`. */
  function SettledOn(s: EngineState, placed: Grid): (t: EngineState)
    requires IsGrid(placed)
    ensures IsGrid(t.grid)
  {
    var n := |FullRows(placed)|;
    var counted := if n > 0 then Scored(s, n).(combo := s.combo + 1) else s.(combo := 0);
    ClearFullSpec(placed);
    counted.(grid := ClearFull(placed))
  }

  /** Locking: settle the piece, then end the game if the top two rows are occupied, else spawn. */
  function Locked(s: EngineState, oracle: nat -> Kind): EngineState
    requires IsGrid(s.grid) && s.current.Some?
  {
    var t := Settled(s);
    if TopOccupied(t.grid) then t.(gameOver := true) else Spawned(t, oracle)
  }

  function HardDropped(s: EngineState, oracle: nat -> Kind): EngineState
    requires IsGrid(s.grid)
  {
    if !Live(s) then s
    else Locked(s.(y := DropRow(s.grid, CellsOf(s.current.value), s.x, s.y)), oracle)
  }

  /** One tick of the game clock at time `now`. */
  function Updated(s: EngineState, now: int, oracle: nat -> Kind): EngineState
    requires IsGrid(s.grid) && s.current.Some?
  {
    if s.gameOver || s.paused then s
    else if s.lockTimer.Some? && now - s.lockTimer.value >= LockDelay then Locked(s, oracle)
    else if now - s.lastDrop >= DropInterval(s.level) then MovedDown(s, now).(lastDrop := now)
    else s
  }

  function PauseToggled(s: EngineState): EngineState
  {
    if s.gameOver then s else s.(paused := !s.paused)
  }

  // ---------------------------------------------------------------------
  // Properties of the transitions

  /** Spawning pops the queue head, refills the queue to two, centres the piece at the top and re-arms hold. */
  lemma SpawnedSpec(s: EngineState, oracle: nat -> Kind)
    requires IsGrid(s.grid) && |s.next| <= 2
    ensures var t := Spawned(s, oracle);
      var head := if s.next == [] then oracle(s.draws) else s.next[0];
      && t.current == Some(Falling(head, 0))
      && |t.next| == 2
      && (|s.next| == 2 ==> t.next == [s.next[1], oracle(s.draws)] && t.draws == s.draws + 1)
      && (s.next == [] ==> t.next == [oracle(s.draws + 1), oracle(s.draws + 2)] && t.draws == s.draws + 3)
      && t.x == SpawnX == 3 && t.y == SpawnY == 0
      && t.canHold && t.lockTimer.None?
      && (t.gameOver <==> s.gameOver || !Fits(s.grid, CellsOf(Falling(head, 0)), SpawnX, SpawnY))
      && Legal(t)
      && t == s.(current := t.current, next := t.next, draws := t.draws, x := t.x, y := t.y,
                 canHold := t.canHold, lockTimer := t.lockTimer, gameOver := t.gameOver)
  {
    RefillSpec(s.next, s.draws, oracle);
    var r1 := if s.next == [] then Refill(s.next, s.draws, oracle) else (s.next, s.draws);
    assert 1 <= |r1.0| <= 2;
    RefillSpec(r1.0[1..], r1.1, oracle);
    if |s.next| == 2 {
      assert r1.0[1..] == [s.next[1]];
    } else if s.next == [] {
      assert r1.0 == [oracle(s.draws), oracle(s.draws + 1)];
      assert r1.0[1..] == [oracle(s.draws + 1)];
    }
  }

  /** Every piece shape fits at the spawn position of an empty board. */
  lemma SpawnFitsOnEmptyGrid(cells: seq<Offset>)
    requires IsPieceCells(cells)
    ensures Fits(EmptyGrid(), cells, SpawnX, SpawnY)
  {
  }

  /** A new game holds the first drawn kind, shows the next two, and is not over. */
  lemma StartedIsGood(now: int, d: nat, oracle: nat -> Kind)
    ensures var t := Started(now, d, oracle);
      && Good(t) && Legal(t) && !t.gameOver && !t.paused
      && t.current == Some(Falling(oracle(d + 0), 0))
      && t.next == [oracle(d + 1), oracle(d + 2)] && t.draws == d + 3
      && t.score == 0 && t.lines == 0 && t.level == 1 && t.combo == 0
      && t.hold.None? && t.canHold && t.grid == EmptyGrid()
  {
    RefillSpec([], d, oracle);
    var b := Requeued(Blank(now, d), oracle);
    assert b.next == [oracle(d + 0), oracle(d + 1)] && b.draws == d + 2;
    SpawnedSpec(b, oracle);
    SpawnFitsOnEmptyGrid(CellsOf(Falling(oracle(d + 0), 0)));
  }

  // ---------------------------------------------------------------------
  // The serialisable state

  /** A board cell as it is handed on: `None`, or its colour triple as a list. */
  function CellValue(c: Cell): Value
  {
    match c
    case None => Null
    case Some(RGB(r, g, b)) => Arr([Num(r), Num(g), Num(b)])
  }

  /** A row as a list of cells. */
  function RowValue(row: Row): Value
  {
    Arr(seq(|row|, i requires 0 <= i < |row| => CellValue(row[i])))
  }

  /** The copied grid: a list of rows. */
  function GridValue(g: Grid): Value
  {
    Arr(seq(|g|, i requires 0 <= i < |g| => RowValue(g[i])))
  }

  /** A kind by its one-letter name, or `None`. */
  function KindValue(k: Option<Kind>): Value
  {
    match k
    case None => Null
    case Some(k) => Str(KindName(k))
  }

  /** The queue as a list of names. */
  function QueueValue(q: seq<Kind>): Value
  {
    Arr(seq(|q|, i requires 0 <= i < |q| => Str(KindName(q[i]))))
  }

  /** The `current_piece` entry: the falling piece's name and rotation (0 without one) and its position. */
  function PieceValue(s: EngineState): Value
  {
    Obj(map[
      "type" := KindValue(if s.current.Some? then Some(s.current.value.kind) else None),
      "rotation" := Num(if s.current.Some? then s.current.value.rotation else 0),
      "x" := Num(s.x),
      "y" := Num(s.y)])
  }

  /** The record `get_state` builds from the engine state. */
  function Snapshot(s: EngineState): Value
  {
    Obj(map[
      "board" := GridValue(s.grid),
      "score" := Num(s.score),
      "lines_cleared" := Num(s.lines),
      "level" := Num(s.level),
      "game_over" := Bool(s.gameOver),
      "current_piece" := PieceValue(s),
      "next_pieces" := QueueValue(s.next),
      "hold_piece" := KindValue(s.hold)])
  }
}
