/**
 * Reading back the record `get_state` builds.  The record keeps every part
 * of the engine state it lists: a reader recovers the board, the score,
 * lines and level, the game-over flag, the falling piece and its position,
 * the queue and the hold slot exactly.
 */
module Snapshots {
  import opened Wrappers
  import opened Pieces
  import opened Playfield
  import opened Json
  import opened Engine

  /** The part of the engine state that a snapshot carries. */
  datatype StateView = StateView(
    grid: Grid,
    score: int,
    lines: int,
    level: int,
    gameOver: bool,
    current: Option<Falling>,
    x: int,
    y: int,
    next: seq<Kind>,
    hold: Option<Kind>)

  function ViewOf(s: EngineState): StateView
  {
    StateView(s.grid, s.score, s.lines, s.level, s.gameOver, s.current, s.x, s.y, s.next, s.hold)
  }

  /** A cell: `None`, or a list of three numbers. */
  function ReadCell(v: Value): Option<Cell>
  {
    match v
    case Null => Some(None)
    case Arr(c) =>
      if |c| == 3 && c[0].Num? && c[1].Num? && c[2].Num? then Some(Some(RGB(c[0].n, c[1].n, c[2].n)))
      else None
    case _ => None
  }

  /** A list of cells. */
  function ReadRow(v: Value): Option<Row>
  {
    if v.Arr? && forall i :: 0 <= i < |v.items| ==> ReadCell(v.items[i]).Some? then
      Some(seq(|v.items|, i requires 0 <= i < |v.items| => ReadCell(v.items[i]).value))
    else None
  }

  /** A list of rows. */
  function ReadGrid(v: Value): Option<Grid>
  {
    if v.Arr? && forall i :: 0 <= i < |v.items| ==> ReadRow(v.items[i]).Some? then
      Some(seq(|v.items|, i requires 0 <= i < |v.items| => ReadRow(v.items[i]).value))
    else None
  }

  /** A kind name, or `None`. */
  function ReadKind(v: Value): Option<Option<Kind>>
  {
    match v
    case Null => Some(None)
    case Str(name) => if ParseKind(name).Some? then Some(ParseKind(name)) else None
    case _ => None
  }

  /** A list of kind names. */
  function ReadQueue(v: Value): Option<seq<Kind>>
  {
    if v.Arr? && forall i :: 0 <= i < |v.items| ==> v.items[i].Str? && ParseKind(v.items[i].s).Some? then
      Some(seq(|v.items|, i requires 0 <= i < |v.items| => ParseKind(v.items[i].s).value))
    else None
  }

  /** The `current_piece` entry: the piece, if its type is not `None`, and its position. */
  function ReadPiece(v: Value): Option<(Option<Falling>, int, int)>
  {
    if !v.Obj? then None
    else
      var f := v.fields;
      if !("type" in f && "rotation" in f && "x" in f && "y" in f) then None
      else if !(f["rotation"].Num? && f["x"].Num? && f["y"].Num?) then None
      else
        var r := f["rotation"].n;
        match ReadKind(f["type"])
        case None => None
        case Some(None) => Some((None, f["x"].n, f["y"].n))
        case Some(Some(k)) =>
          if 0 <= r < 4 then Some((Some(Falling(k, r)), f["x"].n, f["y"].n)) else None
  }

  /** Keys of the state record. */
  const Keys: set<string> :=
    {"board", "score", "lines_cleared", "level", "game_over", "current_piece", "next_pieces", "hold_piece"}

  /** The state view a record describes, if it is well formed. */
  function ReadSnapshot(v: Value): Option<StateView>
  {
    if !(v.Obj? && Keys <= v.fields.Keys) then None
    else
      var f := v.fields;
      var grid, piece, next, hold := ReadGrid(f["board"]), ReadPiece(f["current_piece"]), ReadQueue(f["next_pieces"]), ReadKind(f["hold_piece"]);
      if !(f["score"].Num? && f["lines_cleared"].Num? && f["level"].Num? && f["game_over"].Bool?) then None
      else if grid.None? || piece.None? || next.None? || hold.None? then None
      else
        var (current, x, y) := piece.value;
        Some(StateView(grid.value, f["score"].n, f["lines_cleared"].n, f["level"].n, f["game_over"].b,
                       current, x, y, next.value, hold.value))
  }

  lemma RowReadsBack(row: Row)
    ensures ReadRow(RowValue(row)) == Some(row)
  {
    var items := RowValue(row).items;
    forall i | 0 <= i < |items|
      ensures ReadCell(items[i]) == Some(row[i])
    {
      match row[i]
      case None =>
      case Some(RGB(r, g, b)) =>
    }
    assert seq(|items|, i requires 0 <= i < |items| => ReadCell(items[i]).value) == row;
  }

  lemma GridReadsBack(g: Grid)
    ensures ReadGrid(GridValue(g)) == Some(g)
  {
    var items := GridValue(g).items;
    forall i | 0 <= i < |items|
      ensures ReadRow(items[i]) == Some(g[i])
    {
      RowReadsBack(g[i]);
    }
    assert seq(|items|, i requires 0 <= i < |items| => ReadRow(items[i]).value) == g;
  }

  lemma QueueReadsBack(q: seq<Kind>)
    ensures ReadQueue(QueueValue(q)) == Some(q)
  {
    var items := QueueValue(q).items;
    forall i | 0 <= i < |items|
      ensures items[i].Str? && ParseKind(items[i].s) == Some(q[i])
    {
      KindNameParses(q[i]);
    }
    assert seq(|items|, i requires 0 <= i < |items| => ParseKind(items[i].s).value) == q;
  }

  lemma KindReadsBack(k: Option<Kind>)
    ensures ReadKind(KindValue(k)) == Some(k)
  {
    if k.Some? {
      KindNameParses(k.value);
    }
  }

  lemma PieceReadsBack(s: EngineState)
    ensures ReadPiece(PieceValue(s)) == Some((s.current, s.x, s.y))
  {
    KindReadsBack(if s.current.Some? then Some(s.current.value.kind) else None);
  }

  /** Reading a snapshot back gives exactly the state it was taken from, in the parts it lists. */
  lemma SnapshotReadsBack(s: EngineState)
    ensures ReadSnapshot(Snapshot(s)) == Some(ViewOf(s))
  {
    GridReadsBack(s.grid);
    PieceReadsBack(s);
    QueueReadsBack(s.next);
    KindReadsBack(s.hold);
    assert Snapshot(s).fields.Keys == Keys;
  }

  /** Two states with the same snapshot agree on everything the snapshot lists. */
  lemma SnapshotDeterminesView(s: EngineState, t: EngineState)
    requires Snapshot(s) == Snapshot(t)
    ensures ViewOf(s) == ViewOf(t)
  {
    SnapshotReadsBack(s);
    SnapshotReadsBack(t);
  }
}
