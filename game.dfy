/**
 * The engine object: `GameEngine` keeps the engine state in fields and
 * updates them in place.  Each method is proved to perform the matching
 * transition of `Engine`, and the public actions keep the class
 * invariant `Valid()`, using what `EngineFacts` proves about the
 * transitions.
 */
module Game {
  import opened Wrappers
  import opened Pieces
  import opened Playfield
  import opened Json
  import opened Engine
  import opened EngineFacts

  class GameEngine {
    var board: Board
    /** Source of the kinds `random.choice` would pick: draw number to kind. */
    const oracle: nat -> Kind
    /** How many kinds have been drawn so far. */
    var draws: nat
    var score: int
    var linesCleared: int
    var level: int
    var gameOver: bool
    var paused: bool
    var current: Piece?
    var pieceX: int
    var pieceY: int
    var nextPieces: seq<Kind>
    var holdPiece: Option<Kind>
    var canHold: bool
    var lastDropTime: int
    var lockTimer: Option<int>
    var combo: int

    /** The engine's fields as a value. */
    function State(): EngineState
      reads this, board, current
    {
      EngineState(board.grid, score, linesCleared, level, combo, gameOver, paused,
                  if current == null then None else Some(Falling(current.kind, current.rotation)),
                  pieceX, pieceY, nextPieces, holdPiece, canHold, lastDropTime, lockTimer, draws)
    }

    ghost predicate Valid()
      reads this, board, current
    {
      board.Valid() && Good(State())
    }

    constructor (oracle: nat -> Kind, now: int)
      ensures Valid() && this.oracle == oracle
      ensures State() == Started(now, 0, oracle)
    {
      board := new Board();
      this.oracle := oracle;
      draws := 0;
      new;
      Reset(now);
    }

    /** `reset`: a new game on a new, empty board; the draw count carries on. */
    method Reset(now: int)
      modifies this
      ensures Valid() && fresh(board)
      ensures State() == Started(now, old(draws), oracle)
    {
      Clear(now);
      FillPieceQueue();
      SpawnNewPiece();
      StartedIsGood(now, old(draws), oracle);
    }

    /** The field assignments of `__init__`, before the queue is filled. */
    method Clear(now: int)
      modifies this
      ensures fresh(board) && board.Valid()
      ensures State() == Blank(now, old(draws))
    {
      board := new Board();
      ClearProgress();
      ClearPieces(now);
    }

    method ClearProgress()
      modifies this`score, this`linesCleared, this`level, this`combo, this`gameOver, this`paused
      ensures score == 0 && linesCleared == 0 && level == 1 && combo == 0 && !gameOver && !paused
    {
      score, linesCleared, level, combo := 0, 0, 1, 0;
      gameOver, paused := false, false;
    }

    method ClearPieces(now: int)
      modifies this`current, this`pieceX, this`pieceY, this`nextPieces, this`holdPiece, this`canHold, this`lastDropTime, this`lockTimer
      ensures current == null && pieceX == 0 && pieceY == 0 && nextPieces == [] && holdPiece.None? && canHold
      ensures lastDropTime == now && lockTimer.None?
    {
      current, pieceX, pieceY := null, 0, 0;
      nextPieces, holdPiece, canHold := [], None, true;
      lastDropTime, lockTimer := now, None;
    }

    method FillPieceQueue()
      modifies this`nextPieces, this`draws
      ensures (nextPieces, draws) == Refill(old(nextPieces), old(draws), oracle)
      ensures State() == Requeued(old(State()), oracle)
    {
      while |nextPieces| < 2
        invariant Refill(nextPieces, draws, oracle) == Refill(old(nextPieces), old(draws), oracle)
        decreases 2 - |nextPieces|
      {
        if nextPieces == [] {
          assert [] + [oracle(draws)] + [oracle(draws + 1)] == [oracle(draws), oracle(draws + 1)];
        }
        nextPieces := nextPieces + [oracle(draws)];
        draws := draws + 1;
      }
    }

    /** `_spawn_new_piece`: pop the queue head, refill the queue, and place the piece at the spawn position. */
    method SpawnNewPiece()
      requires board.Valid()
      modifies this
      ensures board == old(board)
      ensures State() == Spawned(old(State()), oracle)
    {
      PopNextPiece();
      FillPieceQueue();
      PutAtSpawn();
    }

    /** The last lines of `_spawn_new_piece`: the spawn position, the collision check, and the reset flags. */
    method PutAtSpawn()
      requires board.Valid() && current != null
      modifies this`pieceX, this`pieceY, this`gameOver, this`canHold, this`lockTimer
      ensures pieceX == SpawnX && pieceY == SpawnY && canHold && lockTimer.None?
      ensures gameOver == (old(gameOver) || !Fits(board.grid, OccupiedCells(current.kind, current.rotation), SpawnX, SpawnY))
    {
      var ok := board.IsValidPosition(current, Width / 2 - 2, 0);
      pieceX, pieceY, gameOver, canHold, lockTimer := Width / 2 - 2, 0, gameOver || !ok, true, None;
    }

    /** The first lines of `_spawn_new_piece`: fill an empty queue, then pop its head. */
    method PopNextPiece()
      modifies this
      ensures board == old(board)
      ensures State() == Popped(old(State()), oracle)
    {
      if |nextPieces| == 0 {
        FillPieceQueue();
      }
      var head := nextPieces[0];
      nextPieces := nextPieces[1..];
      current := new Piece(head);
    }

    /** `move_left`: one column left, if the piece fits there. */
    method MoveLeft() returns (moved: bool)
      requires Valid()
      modifies this`pieceX
      ensures Valid()
      ensures moved <==> Live(old(State())) && Fits(board.grid, CellsOf(old(State()).current.value), old(pieceX) - 1, pieceY)
      ensures State() == MovedSideways(old(State()), -1)
    {
      GoodAfterMoves(old(State()), -1, 0, true);
      moved := Shift(-1);
    }

    /** `move_right`: one column right, if the piece fits there. */
    method MoveRight() returns (moved: bool)
      requires Valid()
      modifies this`pieceX
      ensures Valid()
      ensures moved <==> Live(old(State())) && Fits(board.grid, CellsOf(old(State()).current.value), old(pieceX) + 1, pieceY)
      ensures State() == MovedSideways(old(State()), 1)
    {
      GoodAfterMoves(old(State()), 1, 0, true);
      moved := Shift(1);
    }

    /** The common body of the two sideways moves. */
    method Shift(dx: int) returns (moved: bool)
      requires board.Valid()
      modifies this`pieceX
      ensures moved <==> Live(old(State())) && Fits(board.grid, CellsOf(old(State()).current.value), old(pieceX) + dx, pieceY)
      ensures State() == MovedSideways(old(State()), dx)
    {
      if gameOver || paused || current == null {
        return false;
      }
      var newX := pieceX + dx;
      moved := board.IsValidPosition(current, newX, pieceY);
      if moved {
        pieceX := newX;
      }
    }

    /** `move_down` at time `now`: one row down, or start the lock timer if it is not running. */
    method MoveDown(now: int) returns (moved: bool)
      requires Valid()
      modifies this`pieceY, this`lockTimer
      ensures Valid()
      ensures moved <==> Live(old(State())) && Fits(board.grid, CellsOf(old(State()).current.value), pieceX, old(pieceY) + 1)
      ensures State() == MovedDown(old(State()), now)
    {
      moved := StepDown(now);
    }

    /** The body of `move_down`. */
    method StepDown(now: int) returns (moved: bool)
      requires board.Valid()
      modifies this`pieceY, this`lockTimer
      ensures moved <==> Live(old(State())) && Fits(board.grid, CellsOf(old(State()).current.value), pieceX, old(pieceY) + 1)
      ensures State() == MovedDown(old(State()), now)
    {
      if gameOver || paused || current == null {
        return false;
      }
      var newY := pieceY + 1;
      moved := board.IsValidPosition(current, pieceX, newY);
      if moved {
        pieceY, lockTimer := newY, None;
      } else if lockTimer.None? {
        lockTimer := Some(now);
      }
    }

    /** `toggle_pause`: flip the pause flag unless the game is over. */
    method TogglePause()
      requires Valid()
      modifies this`paused
      ensures Valid()
      ensures State() == PauseToggled(old(State()))
    {
      GoodAfterMoves(old(State()), 0, 0, true);
      if !gameOver {
        paused := !paused;
      }
    }

    /**
     * `_update_score`: award points for `n` cleared rows and raise the level
     * when the line count reaches a new multiple of ten.  Python's `//` and
     * Dafny's `/` agree for the positive divisor 10.
     */
    method UpdateScore(n: int)
      modifies this`score, this`linesCleared, this`level
      ensures State() == Scored(old(State()), n)
    {
      var base := BaseScore(n);
      var bonus := combo * 50;
      score := score + (base + bonus) * level;
      linesCleared := linesCleared + n;
      var newLevel := linesCleared / 10 + 1;
      if newLevel > level {
        level := newLevel;
      }
    }

    /** `rotate_clockwise`: turn in place, or at the first kick probe that fits; otherwise undo the turn. */
    method RotateClockwise() returns (rotated: bool)
      requires Valid()
      modifies this`pieceX, this`pieceY, current
      ensures Valid()
      ensures current == old(current)
      ensures rotated <==> Live(old(State())) && TurnShift(old(State()), Clockwise(old(State()).current.value.rotation)).Some?
      ensures State() == Turned(old(State()), true)
    {
      GoodAfterMoves(old(State()), 0, 0, true);
      rotated := Turn(true);
    }

    /** `rotate_counter_clockwise`: as `RotateClockwise`, turning the other way. */
    method RotateCounterClockwise() returns (rotated: bool)
      requires Valid()
      modifies this`pieceX, this`pieceY, current
      ensures Valid()
      ensures current == old(current)
      ensures rotated <==> Live(old(State())) && TurnShift(old(State()), CounterClockwise(old(State()).current.value.rotation)).Some?
      ensures State() == Turned(old(State()), false)
    {
      GoodAfterMoves(old(State()), 0, 0, false);
      rotated := Turn(false);
    }

    /** The common body of the two rotations. */
    method Turn(clockwise: bool) returns (rotated: bool)
      requires board.Valid()
      modifies this`pieceX, this`pieceY, current
      ensures current == old(current)
      ensures rotated <==>
        && Live(old(State()))
        && TurnShift(old(State()), var r := old(State()).current.value.rotation; if clockwise then Clockwise(r) else CounterClockwise(r)).Some?
      ensures State() == Turned(old(State()), clockwise)
    {
      if gameOver || paused || current == null {
        return false;
      }
      rotated := TurnLive(clockwise);
    }

    /** Turn the falling piece and keep the turn if it fits in place or after a kick; otherwise undo it. */
    method TurnLive(clockwise: bool) returns (rotated: bool)
      requires board.Valid() && current != null
      modifies this`pieceX, this`pieceY, current
      ensures var r := if clockwise then Clockwise(old(current.rotation)) else CounterClockwise(old(current.rotation));
        var shift := KickShift(board.grid, OccupiedCells(current.kind, r), old(pieceX), old(pieceY));
        && (rotated <==> shift.Some?)
        && current.rotation == (if rotated then r else old(current.rotation))
        && (pieceX, pieceY) == if rotated then (old(pieceX) + shift.value.0, old(pieceY) + shift.value.1) else (old(pieceX), old(pieceY))
    {
      if clockwise {
        current.RotateClockwise();
      } else {
        current.RotateCounterClockwise();
      }
      rotated := FitOrKick();
      if !rotated {
        if clockwise {
          current.RotateCounterClockwise();
        } else {
          current.RotateClockwise();
        }
        RotationsCancel(old(current.rotation));
      }
    }

    /** Keep the falling piece where it is if it fits there, else move it by the first wall kick that fits. */
    method FitOrKick() returns (ok: bool)
      requires board.Valid() && current != null
      modifies this`pieceX, this`pieceY
      ensures var shift := KickShift(board.grid, OccupiedCells(current.kind, current.rotation), old(pieceX), old(pieceY));
        && (ok <==> shift.Some?)
        && (pieceX, pieceY) == if ok then (old(pieceX) + shift.value.0, old(pieceY) + shift.value.1) else (old(pieceX), old(pieceY))
    {
      ok := board.IsValidPosition(current, pieceX, pieceY);
      if !ok {
        ghost var x0, y0 := pieceX, pieceY;
        ghost var k;
        ok, k := TryWallKicks();
        FirstKickIs(board.grid, OccupiedCells(current.kind, current.rotation), x0, y0, k);
      }
    }

    /**
     * `_try_wall_kicks`: move to the first probe offset at which the piece fits, if any.
     * The ghost `k` is the index of that probe, or |Kicks| when none fits; the probe
     * loop works on locals and the position is written once after it.
     */
    method TryWallKicks() returns (found: bool, ghost k: nat)
      requires board.Valid() && current != null
      modifies this`pieceX, this`pieceY
      ensures k <= |Kicks| && (found <==> k < |Kicks|)
      ensures forall j :: 0 <= j < k ==> !KickFits(board.grid, OccupiedCells(current.kind, current.rotation), old(pieceX), old(pieceY), j)
      ensures found ==> KickFits(board.grid, OccupiedCells(current.kind, current.rotation), old(pieceX), old(pieceY), k)
      ensures (pieceX, pieceY) == if found then (old(pieceX) + Kicks[k].0, old(pieceY) + Kicks[k].1) else (old(pieceX), old(pieceY))
    {
      ghost var g, cells := board.grid, OccupiedCells(current.kind, current.rotation);
      var x0, y0 := pieceX, pieceY;
      var probe := |Kicks|;
      for i := 0 to |Kicks|
        modifies {}
        invariant probe == |Kicks|
        invariant forall j :: 0 <= j < i ==> !KickFits(g, cells, x0, y0, j)
      {
        var (dx, dy) := Kicks[i];
        var ok := board.IsValidPosition(current, x0 + dx, y0 + dy);
        if ok {
          probe := i;
          break;
        }
      }
      k, found := probe, probe < |Kicks|;
      if found {
        var (dx, dy) := Kicks[probe];
        pieceX, pieceY := x0 + dx, y0 + dy;
      }
    }

    /** `_lock_piece`: settle the piece, then end the game or spawn the next piece. */
    method LockPiece()
      requires Valid()
      modifies this, board
      ensures board == old(board) && Valid()
      ensures State() == Locked(old(State()), oracle)
    {
      LockedIsGood(old(State()), oracle);
      SettlePiece();
      var over := board.IsGameOver();
      if over {
        gameOver := true;
      } else {
        SpawnNewPiece();
      }
    }

    /** The first lines of `_lock_piece`: place the piece, clear full rows, and score them. */
    method SettlePiece()
      requires board.Valid() && current != null
      modifies this`score, this`linesCleared, this`level, this`combo, board
      ensures board.Valid()
      ensures State() == Settled(old(State()))
    {
      board.PlacePiece(current, pieceX, pieceY);
      var lines := board.ClearFullRows();
      ScoreLines(lines);
    }

    /** The scoring lines of `_lock_piece`: score a clear of `lines` rows and raise the combo, or reset it. */
    method ScoreLines(lines: int)
      modifies this`score, this`linesCleared, this`level, this`combo
      ensures State() == if lines > 0 then Scored(old(State()), lines).(combo := old(combo) + 1) else old(State()).(combo := 0)
    {
      if lines > 0 {
        UpdateScore(lines);
        combo := combo + 1;
      } else {
        combo := 0;
      }
    }

    /** `hard_drop`: fall as far as the piece fits, then lock at once; the result is the distance fallen. */
    method HardDrop() returns (distance: int)
      requires Valid()
      modifies this, board
      ensures board == old(board) && Valid()
      ensures distance == if Live(old(State()))
        then DropRow(old(board.grid), CellsOf(old(State()).current.value), old(pieceX), old(pieceY)) - old(pieceY)
        else 0
      ensures State() == HardDropped(old(State()), oracle)
    {
      if gameOver || paused || current == null {
        return 0;
      }
      distance := DropToRest();
      LockPiece();
    }

    /**
     * The loop of `hard_drop`: move down one row at a time while the row below fits.
     * The row is counted in a local and written to `pieceY` once at the end.
     */
    method DropToRest() returns (distance: int)
      requires board.Valid() && current != null
      modifies this`pieceY
      ensures pieceY == DropRow(board.grid, OccupiedCells(current.kind, current.rotation), pieceX, old(pieceY))
      ensures distance == pieceY - old(pieceY)
    {
      ghost var cells := OccupiedCells(current.kind, current.rotation);
      var y := pieceY;
      var below := board.IsValidPosition(current, pieceX, y + 1);
      while below
        modifies {}
        invariant below == Fits(board.grid, cells, pieceX, y + 1)
        invariant DropRow(board.grid, cells, pieceX, y) == DropRow(board.grid, cells, pieceX, pieceY)
        decreases Height - y
      {
        DropRowStep(board.grid, cells, pieceX, y);
        y := y + 1;
        below := board.IsValidPosition(current, pieceX, y + 1);
      }
      DropRowStep(board.grid, cells, pieceX, y);
      distance := y - pieceY;
      pieceY := y;
    }

    /**
     * `hold_current_piece`: park the falling kind in the hold slot and
     * either spawn the next piece (empty slot) or bring the held kind in
     * at the spawn position; either way holding is then disabled.
     */
    method HoldCurrentPiece() returns (held: bool)
      requires Valid()
      modifies this
      ensures board == old(board) && Valid()
      ensures held <==> Live(old(State())) && old(canHold)
      ensures State() == Held(old(State()), oracle)
    {
      GoodAfterHold(old(State()), oracle);
      if gameOver || paused || !canHold || current == null {
        return false;
      }
      if holdPiece.None? {
        HoldFirst();
      } else {
        SwapHeld();
      }
      return true;
    }

    /** The first-hold branch of `hold_current_piece`: keep the current kind and spawn a new piece. */
    method HoldFirst()
      requires board.Valid() && current != null
      modifies this
      ensures board == old(board)
      ensures State() == Spawned(old(State()).(hold := Some(old(current.kind))), oracle).(canHold := false)
    {
      holdPiece := Some(current.kind);
      SpawnNewPiece();
      canHold := false;
    }

    /** The swap branch of `hold_current_piece`: exchange the current and held kinds and restart at the spawn point. */
    method SwapHeld()
      requires current != null && holdPiece.Some?
      modifies this`holdPiece, this`current, this`pieceX, this`pieceY, this`canHold
      ensures State() == old(State()).(hold := Some(old(current.kind)), current := Some(Falling(old(holdPiece.value), 0)),
                                       x := SpawnX, y := SpawnY, canHold := false)
    {
      var previous := holdPiece.value;
      holdPiece := Some(current.kind);
      current := new Piece(previous);
      pieceX, pieceY := Width / 2 - 2, 0;
      canHold := false;
    }

    /**
     * `update` at time `now`: lock a piece whose lock delay has run out;
     * otherwise drop it one row once the level's drop interval has passed.
     */
    method Update(now: int)
      requires Valid()
      modifies this, board
      ensures board == old(board) && Valid()
      ensures State() == Updated(old(State()), now, oracle)
    {
      if gameOver || paused {
        return;
      }
      if lockTimer.Some? && now - lockTimer.value >= LockDelay {
        LockPiece();
        return;
      }
      var interval := DropInterval(level);
      if now - lastDropTime >= interval {
        var moved := MoveDown(now);
        lastDropTime := now;
      }
    }

    /** `get_state`: the engine state as a serialisable record. */
    method GetState() returns (v: Value)
      requires board.Valid()
      ensures v == Snapshot(State())
    {
      var grid := board.GetState();
      var piece := Obj(map[
        "type" := if current == null then Null else Str(KindName(current.kind)),
        "rotation" := Num(if current == null then 0 else current.rotation),
        "x" := Num(pieceX),
        "y" := Num(pieceY)]);
      v := Obj(map[
        "board" := GridValue(grid),
        "score" := Num(score),
        "lines_cleared" := Num(linesCleared),
        "level" := Num(level),
        "game_over" := Bool(gameOver),
        "current_piece" := piece,
        "next_pieces" := QueueValue(nextPieces),
        "hold_piece" := KindValue(holdPiece)]);
    }

    /** `get_ghost_position`: the row where the falling piece would land; 0 without a piece. */
    method GetGhostPosition() returns (landing: int)
      requires board.Valid()
      ensures current == null ==> landing == 0
      ensures current != null ==> landing == DropRow(board.grid, OccupiedCells(current.kind, current.rotation), pieceX, pieceY)
    {
      if current == null {
        return 0;
      }
      landing := board.GetDropPosition(current, pieceX, pieceY);
    }
  }
}
