/**
 * What the engine's transitions guarantee: refused actions change
 * nothing, reachable states stay well formed, the falling piece stays in
 * a valid position, rotations use the first kick that fits, holding works
 * once per spawn, and scoring follows the combo and level rules.
 */
module EngineFacts {
  import opened Wrappers
  import opened Pieces
  import opened Playfield
  import opened Engine

  /** While the game is over, paused or has no piece, every player action leaves the state alone. */
  lemma RefusedActionsChangeNothing(s: EngineState, dx: int, now: int, clockwise: bool, oracle: nat -> Kind)
    requires IsGrid(s.grid) && !Live(s)
    ensures MovedSideways(s, dx) == s
    ensures MovedDown(s, now) == s
    ensures Turned(s, clockwise) == s
    ensures Held(s, oracle) == s
    ensures HardDropped(s, oracle) == s
  {
  }

  /** A sideways move succeeds exactly when the shifted position fits, and then only the column changes. */
  lemma MovedSidewaysSpec(s: EngineState, dx: int)
    requires IsGrid(s.grid) && Live(s)
    ensures var t := MovedSideways(s, dx);
      && (t != s <==> dx != 0 && Fits(s.grid, CellsOf(s.current.value), s.x + dx, s.y))
      && (t == s || t == s.(x := s.x + dx))
  {
  }

  /**
   * A soft drop either moves one row down and stops the lock timer, or
   * keeps the position and starts the timer at `now` unless it is running.
   */
  lemma MovedDownSpec(s: EngineState, now: int)
    requires IsGrid(s.grid) && Live(s)
    ensures var t := MovedDown(s, now);
      if Fits(s.grid, CellsOf(s.current.value), s.x, s.y + 1) then t == s.(y := s.y + 1, lockTimer := None)
      else t == s.(lockTimer := if s.lockTimer.None? then Some(now) else s.lockTimer)
  {
  }

  /**
   * The kick shift: none if the piece fits in place; otherwise the first
   * probe of the kick list at which it fits, and nothing if no probe fits.
   * Whatever shift is chosen, the piece fits after it.
   */
  lemma KickShiftSpec(g: Grid, cells: seq<Offset>, x: int, y: int)
    requires IsGrid(g)
    ensures Fits(g, cells, x, y) ==> KickShift(g, cells, x, y) == Some((0, 0))
    ensures KickShift(g, cells, x, y).Some? ==>
      var o := KickShift(g, cells, x, y).value; Fits(g, cells, x + o.0, y + o.1)
    ensures !Fits(g, cells, x, y) ==>
      (KickShift(g, cells, x, y).None? <==> forall i :: 0 <= i < |Kicks| ==> !KickFits(g, cells, x, y, i))
    ensures !Fits(g, cells, x, y) && KickShift(g, cells, x, y).Some? ==>
      exists i :: 0 <= i < |Kicks| && KickFits(g, cells, x, y, i) && KickShift(g, cells, x, y) == Some(Kicks[i])
        && forall j :: 0 <= j < i ==> !KickFits(g, cells, x, y, j)
  {
    FirstKickSpec(g, cells, x, y, 0);
    var i := FirstKick(g, cells, x, y, 0);
    if !Fits(g, cells, x, y) && i < |Kicks| {
      assert KickFits(g, cells, x, y, i);
    }
  }

  /**
   * A rotation either takes the new orientation, moved by the kick shift,
   * or leaves rotation and position as they were when neither the spot
   * itself nor any probe fits.
   */
  lemma TurnedSpec(s: EngineState, clockwise: bool)
    requires IsGrid(s.grid) && Live(s)
    ensures var f := s.current.value;
      var r := if clockwise then Clockwise(f.rotation) else CounterClockwise(f.rotation);
      var t := Turned(s, clockwise);
      match TurnShift(s, r)
      case None => t == s
      case Some(o) => t == s.(current := Some(Falling(f.kind, r)), x := s.x + o.0, y := s.y + o.1)
  {
  }

  /** A rotation that succeeds leaves the piece in a position where its new orientation fits. */
  lemma TurnShiftFits(s: EngineState, r: Rotation)
    requires IsGrid(s.grid) && s.current.Some? && TurnShift(s, r).Some?
    ensures var o := TurnShift(s, r).value;
      Fits(s.grid, CellsOf(Falling(s.current.value.kind, r)), s.x + o.0, s.y + o.1)
  {
    KickShiftSpec(s.grid, OccupiedCells(s.current.value.kind, r), s.x, s.y);
  }

  /**
   * A hard drop lands on the first row below which the piece does not fit,
   * passing only rows where it fits, and locks there without delay.
   */
  lemma HardDroppedSpec(s: EngineState, oracle: nat -> Kind)
    requires IsGrid(s.grid) && Live(s)
    ensures var cells := CellsOf(s.current.value);
      var d := DropRow(s.grid, cells, s.x, s.y);
      && s.y <= d
      && !Fits(s.grid, cells, s.x, d + 1)
      && (forall z :: s.y < z <= d ==> Fits(s.grid, cells, s.x, z))
      && HardDropped(s, oracle) == Locked(s.(y := d), oracle)
  {
    DropRowSpec(s.grid, CellsOf(s.current.value), s.x, s.y);
  }

  /**
   * A piece of any kind and rotation state, spawned on an empty board and
   * dropped, lands with its lowest occupied cell on the bottom row.
   */
  lemma DropOnEmptyBoard(k: Kind, r: Rotation)
    ensures var cells := OccupiedCells(k, r);
      var d := DropRow(EmptyGrid(), cells, SpawnX, SpawnY);
      && (forall i :: 0 <= i < |cells| ==> d + cells[i].0 <= Height - 1)
      && (exists i :: 0 <= i < |cells| && d + cells[i].0 == Height - 1)
  {
    SpawnFitsOnEmptyGrid(OccupiedCells(k, r));
    DropOnEmptyGrid(OccupiedCells(k, r), SpawnX, SpawnY);
  }

  /** Points are never negative in a well-formed state. */
  lemma AwardIsNonNegative(n: int, combo: int, level: int)
    requires combo >= 0 && level >= 1
    ensures Award(n, combo, level) >= 0
    ensures n > 0 ==> Award(n, combo, level) >= BaseScore(n)
  {
    var base := BaseScore(n) + combo * 50;
    assert base >= BaseScore(n) >= 0;
    assert base * level == base + base * (level - 1);
    assert base * (level - 1) >= 0;
  }

  /** Crossing a multiple of ten never lowers `lines / 10 + 1`. */
  lemma LevelGrows(lines: int, n: int)
    requires lines >= 0 && n >= 0
    ensures (lines + n) / 10 + 1 >= lines / 10 + 1
  {
  }

  /**
   * Settling with `n` full rows: the rows are cleared; with n > 0 the award
   * uses the combo from before the lock, the lines grow by n, the level is
   * `lines / 10 + 1` and the combo goes up by one; with n == 0 the score,
   * lines and level stay and the combo drops to zero.  Nothing else changes.
   */
  lemma SettledSpec(s: EngineState)
    requires Good(s)
    ensures var n := |FullRows(Fused(s))|;
      var t := Settled(s);
      && t.grid == ClearFull(Fused(s))
      && (n > 0 ==>
        && t.score == s.score + (BaseScore(n) + s.combo * 50) * s.level
        && t.lines == s.lines + n
        && t.level == t.lines / 10 + 1
        && t.combo == s.combo + 1)
      && (n == 0 ==> t.score == s.score && t.lines == s.lines && t.level == s.level && t.combo == 0)
      && t == s.(grid := t.grid, score := t.score, lines := t.lines, level := t.level, combo := t.combo)
  {
    SettledOnSpec(s, Fused(s));
  }

  /** `SettledSpec` for any grid the piece was fused into. */
  lemma SettledOnSpec(s: EngineState, placed: Grid)
    requires Good(s) && IsGrid(placed)
    ensures var n := |FullRows(placed)|;
      var t := SettledOn(s, placed);
      && t.grid == ClearFull(placed)
      && (n > 0 ==>
        && t.score == s.score + (BaseScore(n) + s.combo * 50) * s.level
        && t.lines == s.lines + n
        && t.level == t.lines / 10 + 1
        && t.combo == s.combo + 1)
      && (n == 0 ==> t.score == s.score && t.lines == s.lines && t.level == s.level && t.combo == 0)
      && t == s.(grid := t.grid, score := t.score, lines := t.lines, level := t.level, combo := t.combo)
  {
    LevelGrows(s.lines, |FullRows(placed)|);
  }

  /** Settling keeps a reachable state well formed. */
  lemma SettledIsGood(s: EngineState)
    requires Good(s)
    ensures Good(Settled(s))
  {
    SettledOnIsGood(s, Fused(s));
  }

  lemma SettledOnIsGood(s: EngineState, placed: Grid)
    requires Good(s) && IsGrid(placed)
    ensures Good(SettledOn(s, placed))
  {
    SettledOnSpec(s, placed);
  }

  /** Spawning leaves the grid, the points and the hold slot alone. */
  lemma SpawnedKeepsProgress(s: EngineState, oracle: nat -> Kind)
    requires IsGrid(s.grid) && |s.next| <= 2
    ensures var t := Spawned(s, oracle);
      && t.grid == s.grid && t.score == s.score && t.lines == s.lines && t.level == s.level
      && t.combo == s.combo && t.paused == s.paused && t.hold == s.hold
      && t.lastDrop == s.lastDrop && |t.next| == 2 && t.current.Some?
      && Legal(t)
  {
    SpawnedSpec(s, oracle);
  }

  /**
   * Locking: after settling, the game ends if the top two rows are
   * occupied, and otherwise the next piece spawns; either way the points
   * are those of the settled state.
   */
  lemma LockedSpec(s: EngineState, oracle: nat -> Kind)
    requires Good(s)
    ensures var t := Settled(s);
      var u := Locked(s, oracle);
      && (TopOccupied(t.grid) ==> u == t.(gameOver := true))
      && (!TopOccupied(t.grid) ==> u == Spawned(t, oracle))
      && u.grid == t.grid && u.score == t.score && u.lines == t.lines && u.level == t.level && u.combo == t.combo
  {
    var t := Settled(s);
    if !TopOccupied(t.grid) {
      SpawnedKeepsProgress(t, oracle);
    }
  }

  /** Locking keeps a reachable state well formed and leaves the new piece in a valid position. */
  lemma LockedIsGood(s: EngineState, oracle: nat -> Kind)
    requires Good(s)
    ensures Good(Locked(s, oracle)) && Legal(Locked(s, oracle))
  {
    var t := Settled(s);
    SettledIsGood(s);
    if !TopOccupied(t.grid) {
      SpawnedKeepsProgress(t, oracle);
    }
  }

  /**
   * Holding is allowed once per spawn.  The first hold keeps the current
   * kind and spawns the next piece; a later one swaps the current and held
   * kinds and restarts the swapped-in piece at the spawn point, unturned.
   * Afterwards `canHold` is false, so a second hold changes nothing.
   */
  lemma HeldSpec(s: EngineState, oracle: nat -> Kind)
    requires Good(s) && Live(s) && s.canHold
    ensures var t := Held(s, oracle);
      var k := s.current.value.kind;
      && t != s
      && !t.canHold && Held(t, oracle) == t
      && t.hold == Some(k)
      && (s.hold.None? ==> t == Spawned(s.(hold := Some(k)), oracle).(canHold := false) && t.current == Some(Falling(s.next[0], 0)))
      && (s.hold.Some? ==>
        && t.current == Some(Falling(s.hold.value, 0))
        && t.x == SpawnX && t.y == SpawnY
        && t == s.(hold := Some(k), current := t.current, x := t.x, y := t.y, canHold := false))
      && t.grid == s.grid && t.score == s.score && t.lines == s.lines && t.level == s.level
      && Good(t)
  {
    if s.hold.None? {
      SpawnedSpec(s.(hold := Some(s.current.value.kind)), oracle);
    }
  }

  /** A wasted hold does nothing: once `canHold` is false, holding changes nothing. */
  lemma HoldRefusedAfterHold(s: EngineState, oracle: nat -> Kind)
    requires IsGrid(s.grid) && !s.canHold
    ensures Held(s, oracle) == s
  {
  }

  /** An expired lock timer locks the piece before any automatic drop is considered. */
  lemma UpdatedSpec(s: EngineState, now: int, oracle: nat -> Kind)
    requires IsGrid(s.grid) && s.current.Some? && !s.gameOver && !s.paused
    ensures s.lockTimer.Some? && now - s.lockTimer.value >= LockDelay ==> Updated(s, now, oracle) == Locked(s, oracle)
    ensures (s.lockTimer.None? || now - s.lockTimer.value < LockDelay) ==>
      Updated(s, now, oracle) == if now - s.lastDrop >= DropInterval(s.level) then MovedDown(s, now).(lastDrop := now) else s
  {
  }

  /** Moves, soft drops, rotations and pausing keep a reachable state well formed. */
  lemma GoodAfterMoves(s: EngineState, dx: int, now: int, clockwise: bool)
    requires Good(s)
    ensures Good(MovedSideways(s, dx))
    ensures Good(MovedDown(s, now))
    ensures Good(Turned(s, clockwise))
    ensures Good(PauseToggled(s))
  {
    if Live(s) {
      TurnedSpec(s, clockwise);
    }
  }

  /** Holding keeps a reachable state well formed. */
  lemma GoodAfterHold(s: EngineState, oracle: nat -> Kind)
    requires Good(s)
    ensures Good(Held(s, oracle))
  {
    if Live(s) && s.canHold {
      HeldSpec(s, oracle);
    }
  }

  /** A hard drop keeps a reachable state well formed and the next piece in a valid position. */
  lemma GoodAfterHardDrop(s: EngineState, oracle: nat -> Kind)
    requires Good(s) && Legal(s)
    ensures Good(HardDropped(s, oracle)) && Legal(HardDropped(s, oracle))
  {
    if Live(s) {
      LockedIsGood(s.(y := DropRow(s.grid, CellsOf(s.current.value), s.x, s.y)), oracle);
    }
  }

  /** A clock tick keeps a reachable state well formed and the falling piece in a valid position. */
  lemma GoodAfterUpdate(s: EngineState, now: int, oracle: nat -> Kind)
    requires Good(s) && Legal(s)
    ensures Good(Updated(s, now, oracle)) && Legal(Updated(s, now, oracle))
  {
    if !s.gameOver && !s.paused && s.lockTimer.Some? && now - s.lockTimer.value >= LockDelay {
      LockedIsGood(s, oracle);
    }
  }

  /** A rotation keeps the falling piece in a valid position. */
  lemma LegalAfterTurn(s: EngineState, clockwise: bool)
    requires IsGrid(s.grid) && Legal(s)
    ensures Legal(Turned(s, clockwise))
  {
    if Live(s) {
      var r := s.current.value.rotation;
      LegalAfterTurnTo(s, if clockwise then Clockwise(r) else CounterClockwise(r));
    }
  }

  lemma LegalAfterTurnTo(s: EngineState, r: Rotation)
    requires IsGrid(s.grid) && Legal(s) && s.current.Some?
    ensures Legal(TurnedTo(s, r))
  {
    if TurnShift(s, r).Some? {
      LegalAfterKick(s, r);
    } else {
      assert TurnedTo(s, r) == s;
    }
  }

  /** A turn that finds a fitting shift leaves the piece where it fits. */
  lemma LegalAfterKick(s: EngineState, r: Rotation)
    requires IsGrid(s.grid) && s.current.Some? && TurnShift(s, r).Some?
    ensures Legal(TurnedTo(s, r))
  {
    var o := TurnShift(s, r).value;
    var t := TurnedTo(s, r);
    TurnShiftFits(s, r);
    assert t.grid == s.grid && t.current == Some(Falling(s.current.value.kind, r)) && t.x == s.x + o.0 && t.y == s.y + o.1;
  }

  /**
   * Moves and soft drops keep the falling piece in a valid position (or
   * the game over).  The swap branch of holding does not check its spawn
   * position, so holding does not keep this in general.
   */
  lemma LegalAfterMoves(s: EngineState, dx: int, now: int)
    requires IsGrid(s.grid) && Legal(s)
    ensures Legal(MovedSideways(s, dx))
    ensures Legal(MovedDown(s, now))
  {
  }

  /** Score, cleared lines and level are each at least what they were. */
  predicate Progressed(s: EngineState, t: EngineState)
  {
    t.score >= s.score && t.lines >= s.lines && t.level >= s.level
  }

  /** Locking never lowers the score, the cleared lines or the level. */
  lemma LockKeepsProgress(s: EngineState, oracle: nat -> Kind)
    requires Good(s)
    ensures Progressed(s, Locked(s, oracle))
  {
    AwardIsNonNegative(|FullRows(Fused(s))|, s.combo, s.level);
    SettledSpec(s);
    LockedSpec(s, oracle);
  }

  /** A hard drop never lowers the score, the cleared lines or the level. */
  lemma HardDropKeepsProgress(s: EngineState, oracle: nat -> Kind)
    requires Good(s)
    ensures Progressed(s, HardDropped(s, oracle))
  {
    if Live(s) {
      LockKeepsProgress(s.(y := DropRow(s.grid, CellsOf(s.current.value), s.x, s.y)), oracle);
    }
  }

  /** A clock tick never lowers the score, the cleared lines or the level. */
  lemma UpdateKeepsProgress(s: EngineState, now: int, oracle: nat -> Kind)
    requires Good(s)
    ensures Progressed(s, Updated(s, now, oracle))
  {
    if !s.gameOver && !s.paused && s.lockTimer.Some? && now - s.lockTimer.value >= LockDelay {
      LockKeepsProgress(s, oracle);
    }
  }

  /** Moves, rotations, holds and pausing leave the score, the cleared lines and the level alone. */
  lemma MovesKeepProgress(s: EngineState, dx: int, now: int, clockwise: bool, oracle: nat -> Kind)
    requires Good(s)
    ensures var ts := [MovedSideways(s, dx), MovedDown(s, now), Turned(s, clockwise), Held(s, oracle), PauseToggled(s)];
      forall i :: 0 <= i < |ts| ==> ts[i].score == s.score && ts[i].lines == s.lines && ts[i].level == s.level
  {
    if Live(s) {
      TurnedSpec(s, clockwise);
      if s.canHold {
        HeldSpec(s, oracle);
      }
    }
  }
}
