/**
 * The seven tetrominoes: a fixed table of 4x4 shape matrices, one per
 * kind and rotation state, and the `Piece` object whose rotation counter
 * is turned in place.
 */
module Pieces {
  import opened Wrappers

  /** The seven piece kinds, keyed by their one-letter names. */
  datatype Kind = I | O | T | S | Z | J | L

  /** An RGB colour triple, as stored in a board cell. */
  datatype Color = RGB(red: int, green: int, blue: int)

  /** A rotation state; the source keeps it in [0, 4) by reducing modulo 4. */
  type Rotation = r: int | 0 <= r < 4

  /** A (row, col) offset inside the 4x4 frame of a piece. */
  type Offset = (int, int)

  /** A shape matrix: rows of 0/1 entries. */
  type Matrix = seq<seq<int>>

  const AllKinds: seq<Kind> := [I, O, T, S, Z, J, L]

  function KindName(k: Kind): string
  {
    match k
    case I => "I"
    case O => "O"
    case T => "T"
    case S => "S"
    case Z => "Z"
    case J => "J"
    case L => "L"
  }

  /** The membership test `piece_type in PIECES`: the kind a name denotes, if any. */
  function ParseKind(name: string): (r: Option<Kind>)
    ensures r.Some? ==> KindName(r.value) == name
    ensures r.None? ==> forall k: Kind :: KindName(k) != name
  {
    if name == "I" then Some(I)
    else if name == "O" then Some(O)
    else if name == "T" then Some(T)
    else if name == "S" then Some(S)
    else if name == "Z" then Some(Z)
    else if name == "J" then Some(J)
    else if name == "L" then Some(L)
    else None
  }

  /** Each kind's name reads back as that kind. */
  lemma KindNameParses(k: Kind)
    ensures ParseKind(KindName(k)) == Some(k)
  {
  }

  /** The piece colours of the `COLORS` table. */
  function ColorOf(k: Kind): Color
  {
    match k
    case I => RGB(0, 255, 255)
    case O => RGB(255, 255, 0)
    case T => RGB(128, 0, 128)
    case S => RGB(0, 255, 0)
    case Z => RGB(255, 0, 0)
    case J => RGB(0, 0, 255)
    case L => RGB(255, 165, 0)
  }

  predicate IsMatrix(m: Matrix)
  {
    |m| == 4 && forall row :: 0 <= row < 4 ==> |m[row]| == 4
  }

  const OShape: Matrix := [[0, 1, 1, 0], [0, 1, 1, 0], [0, 0, 0, 0], [0, 0, 0, 0]]

  /** The `PIECES` table as one row of four rotation states per kind, in the order of `KindIndex`. */
  const PieceTable: seq<seq<Matrix>> := [
    // I
    [[[0, 0, 0, 0], [1, 1, 1, 1], [0, 0, 0, 0], [0, 0, 0, 0]],
     [[0, 0, 1, 0], [0, 0, 1, 0], [0, 0, 1, 0], [0, 0, 1, 0]],
     [[0, 0, 0, 0], [0, 0, 0, 0], [1, 1, 1, 1], [0, 0, 0, 0]],
     [[0, 1, 0, 0], [0, 1, 0, 0], [0, 1, 0, 0], [0, 1, 0, 0]]],
    // O: one shape repeated in all four states
    [OShape, OShape, OShape, OShape],
    // T
    [[[0, 1, 0, 0], [1, 1, 1, 0], [0, 0, 0, 0], [0, 0, 0, 0]],
     [[0, 1, 0, 0], [0, 1, 1, 0], [0, 1, 0, 0], [0, 0, 0, 0]],
     [[0, 0, 0, 0], [1, 1, 1, 0], [0, 1, 0, 0], [0, 0, 0, 0]],
     [[0, 1, 0, 0], [1, 1, 0, 0], [0, 1, 0, 0], [0, 0, 0, 0]]],
    // S
    [[[0, 1, 1, 0], [1, 1, 0, 0], [0, 0, 0, 0], [0, 0, 0, 0]],
     [[0, 1, 0, 0], [0, 1, 1, 0], [0, 0, 1, 0], [0, 0, 0, 0]],
     [[0, 0, 0, 0], [0, 1, 1, 0], [1, 1, 0, 0], [0, 0, 0, 0]],
     [[1, 0, 0, 0], [1, 1, 0, 0], [0, 1, 0, 0], [0, 0, 0, 0]]],
    // Z
    [[[1, 1, 0, 0], [0, 1, 1, 0], [0, 0, 0, 0], [0, 0, 0, 0]],
     [[0, 0, 1, 0], [0, 1, 1, 0], [0, 1, 0, 0], [0, 0, 0, 0]],
     [[0, 0, 0, 0], [1, 1, 0, 0], [0, 1, 1, 0], [0, 0, 0, 0]],
     [[0, 1, 0, 0], [1, 1, 0, 0], [1, 0, 0, 0], [0, 0, 0, 0]]],
    // J
    [[[1, 0, 0, 0], [1, 1, 1, 0], [0, 0, 0, 0], [0, 0, 0, 0]],
     [[0, 1, 1, 0], [0, 1, 0, 0], [0, 1, 0, 0], [0, 0, 0, 0]],
     [[0, 0, 0, 0], [1, 1, 1, 0], [0, 0, 1, 0], [0, 0, 0, 0]],
     [[0, 1, 0, 0], [0, 1, 0, 0], [1, 1, 0, 0], [0, 0, 0, 0]]],
    // L
    [[[0, 0, 1, 0], [1, 1, 1, 0], [0, 0, 0, 0], [0, 0, 0, 0]],
     [[0, 1, 0, 0], [0, 1, 0, 0], [0, 1, 1, 0], [0, 0, 0, 0]],
     [[0, 0, 0, 0], [1, 1, 1, 0], [1, 0, 0, 0], [0, 0, 0, 0]],
     [[1, 1, 0, 0], [0, 1, 0, 0], [0, 1, 0, 0], [0, 0, 0, 0]]]
  ]

  /** The position of kind `k` in `PieceTable`. */
  function KindIndex(k: Kind): (i: nat)
    ensures i < 7
  {
    match k
    case I => 0
    case O => 1
    case T => 2
    case S => 3
    case Z => 4
    case J => 5
    case L => 6
  }

  /** The lookup `PIECES[k][r]`: the shape of kind `k` in rotation state `r`. */
  function Shape(k: Kind, r: Rotation): (m: Matrix)
    ensures IsMatrix(m)
    ensures forall row, col :: 0 <= row < 4 && 0 <= col < 4 ==> m[row][col] in {0, 1}
  {
    ShapeTableIsWellFormed(KindIndex(k), r);
    PieceTable[KindIndex(k)][r]
  }

  lemma ShapeTableIsWellFormed(i: nat, r: Rotation)
    requires i < 7
    ensures |PieceTable| == 7 && |PieceTable[i]| == 4
    ensures IsMatrix(PieceTable[i][r])
    ensures forall row, col :: 0 <= row < 4 && 0 <= col < 4 ==> PieceTable[i][r][row][col] in {0, 1}
  {
  }

  function Clockwise(r: Rotation): Rotation
  {
    (r + 1) % 4
  }

  /** Python's `%` floors, which for the divisor 4 agrees with Dafny's Euclidean `%`. */
  function CounterClockwise(r: Rotation): Rotation
  {
    (r - 1) % 4
  }

  /** Turning one way and then the other restores the rotation state. */
  lemma RotationsCancel(r: Rotation)
    ensures CounterClockwise(Clockwise(r)) == r
    ensures Clockwise(CounterClockwise(r)) == r
  {
  }

  /** The row-major position of an offset in the 4x4 frame. */
  function Key(p: Offset): int
  {
    4 * p.0 + p.1
  }

  /**
   * A point of the row-major scan: every row before `row` is done and,
   * in row `row`, every column before `col`.
   */
  predicate AtPosition(row: nat, col: nat)
  {
    (row < 4 && col <= 4) || (row == 4 && col == 0)
  }

  /**
   * The occupied cells of `m` that the scan has passed at (`row`, `col`),
   * in row-major order; `Scan(m, 4, 0)` covers the whole frame.
   */
  function Scan(m: Matrix, row: nat, col: nat): seq<Offset>
    requires IsMatrix(m) && AtPosition(row, col)
    decreases row, col
  {
    if col > 0 then Scan(m, row, col - 1) + Entry(m, row, col - 1)
    else if row > 0 then Scan(m, row - 1, 4)
    else []
  }

  /** The cell (row, col), listed if its entry is set. */
  function Entry(m: Matrix, row: nat, col: nat): seq<Offset>
    requires IsMatrix(m) && row < 4 && col < 4
  {
    if m[row][col] != 0 then [(row, col)] else []
  }

  /** The scan of the whole frame, written out position by position. */
  function Unrolled(m: Matrix): seq<Offset>
    requires IsMatrix(m)
  {
    [] + Entry(m, 0, 0) + Entry(m, 0, 1) + Entry(m, 0, 2) + Entry(m, 0, 3)
    + Entry(m, 1, 0) + Entry(m, 1, 1) + Entry(m, 1, 2) + Entry(m, 1, 3)
    + Entry(m, 2, 0) + Entry(m, 2, 1) + Entry(m, 2, 2) + Entry(m, 2, 3)
    + Entry(m, 3, 0) + Entry(m, 3, 1) + Entry(m, 3, 2) + Entry(m, 3, 3)
  }

  lemma ScanUnrolled(m: Matrix)
    requires IsMatrix(m)
    ensures Scan(m, 4, 0) == Unrolled(m)
  {
    assert Scan(m, 0, 1) == Scan(m, 0, 0) + Entry(m, 0, 0);
    assert Scan(m, 0, 2) == Scan(m, 0, 1) + Entry(m, 0, 1);
    assert Scan(m, 0, 3) == Scan(m, 0, 2) + Entry(m, 0, 2);
    assert Scan(m, 0, 4) == Scan(m, 0, 3) + Entry(m, 0, 3);
    assert Scan(m, 1, 0) == Scan(m, 0, 4);
    assert Scan(m, 1, 1) == Scan(m, 1, 0) + Entry(m, 1, 0);
    assert Scan(m, 1, 2) == Scan(m, 1, 1) + Entry(m, 1, 1);
    assert Scan(m, 1, 3) == Scan(m, 1, 2) + Entry(m, 1, 2);
    assert Scan(m, 1, 4) == Scan(m, 1, 3) + Entry(m, 1, 3);
    assert Scan(m, 2, 0) == Scan(m, 1, 4);
    assert Scan(m, 2, 1) == Scan(m, 2, 0) + Entry(m, 2, 0);
    assert Scan(m, 2, 2) == Scan(m, 2, 1) + Entry(m, 2, 1);
    assert Scan(m, 2, 3) == Scan(m, 2, 2) + Entry(m, 2, 2);
    assert Scan(m, 2, 4) == Scan(m, 2, 3) + Entry(m, 2, 3);
    assert Scan(m, 3, 0) == Scan(m, 2, 4);
    assert Scan(m, 3, 1) == Scan(m, 3, 0) + Entry(m, 3, 0);
    assert Scan(m, 3, 2) == Scan(m, 3, 1) + Entry(m, 3, 1);
    assert Scan(m, 3, 3) == Scan(m, 3, 2) + Entry(m, 3, 2);
    assert Scan(m, 3, 4) == Scan(m, 3, 3) + Entry(m, 3, 3);
  }

  /**
   * The cells each matrix of `PieceTable` sets, in row-major order, laid
   * out like `PieceTable`; `CellTableIsScan` proves every entry is what
   * scanning its matrix yields.
   */
  const CellTable: seq<seq<seq<Offset>>> := [
    // I
    [[(1, 0), (1, 1), (1, 2), (1, 3)],
     [(0, 2), (1, 2), (2, 2), (3, 2)],
     [(2, 0), (2, 1), (2, 2), (2, 3)],
     [(0, 1), (1, 1), (2, 1), (3, 1)]],
    // O
    [[(0, 1), (0, 2), (1, 1), (1, 2)],
     [(0, 1), (0, 2), (1, 1), (1, 2)],
     [(0, 1), (0, 2), (1, 1), (1, 2)],
     [(0, 1), (0, 2), (1, 1), (1, 2)]],
    // T
    [[(0, 1), (1, 0), (1, 1), (1, 2)],
     [(0, 1), (1, 1), (1, 2), (2, 1)],
     [(1, 0), (1, 1), (1, 2), (2, 1)],
     [(0, 1), (1, 0), (1, 1), (2, 1)]],
    // S
    [[(0, 1), (0, 2), (1, 0), (1, 1)],
     [(0, 1), (1, 1), (1, 2), (2, 2)],
     [(1, 1), (1, 2), (2, 0), (2, 1)],
     [(0, 0), (1, 0), (1, 1), (2, 1)]],
    // Z
    [[(0, 0), (0, 1), (1, 1), (1, 2)],
     [(0, 2), (1, 1), (1, 2), (2, 1)],
     [(1, 0), (1, 1), (2, 1), (2, 2)],
     [(0, 1), (1, 0), (1, 1), (2, 0)]],
    // J
    [[(0, 0), (1, 0), (1, 1), (1, 2)],
     [(0, 1), (0, 2), (1, 1), (2, 1)],
     [(1, 0), (1, 1), (1, 2), (2, 2)],
     [(0, 1), (1, 1), (2, 0), (2, 1)]],
    // L
    [[(0, 2), (1, 0), (1, 1), (1, 2)],
     [(0, 1), (1, 1), (2, 1), (2, 2)],
     [(1, 0), (1, 1), (1, 2), (2, 0)],
     [(0, 0), (0, 1), (1, 1), (2, 1)]]
  ]

  /** Each entry of `CellTable` is the row-major scan of the matching `Shape` matrix. */
  lemma CellTableIsScan(k: Kind, r: Rotation)
    ensures CellTable[KindIndex(k)][r] == Scan(Shape(k, r), 4, 0)
  {
    ScanUnrolled(Shape(k, r));
    match k
    case I => IEntries(r);
    case O => OEntries(r);
    case T => TEntries(r);
    case S => SEntries(r);
    case Z => ZEntries(r);
    case J => JEntries(r);
    case L => LEntries(r);
  }

  lemma IEntries(r: Rotation)
    ensures CellTable[0][r] == Unrolled(Shape(I, r))
  {
    if r == 0 {
      assert CellTable[0][0] == Unrolled(Shape(I, 0));
    } else if r == 1 {
      assert CellTable[0][1] == Unrolled(Shape(I, 1));
    } else if r == 2 {
      assert CellTable[0][2] == Unrolled(Shape(I, 2));
    } else {
      assert CellTable[0][3] == Unrolled(Shape(I, 3));
    }
  }

  lemma OEntries(r: Rotation)
    ensures CellTable[1][r] == Unrolled(Shape(O, r))
  {
    if r == 0 {
      assert CellTable[1][0] == Unrolled(Shape(O, 0));
    } else if r == 1 {
      assert CellTable[1][1] == Unrolled(Shape(O, 1));
    } else if r == 2 {
      assert CellTable[1][2] == Unrolled(Shape(O, 2));
    } else {
      assert CellTable[1][3] == Unrolled(Shape(O, 3));
    }
  }

  lemma TEntries(r: Rotation)
    ensures CellTable[2][r] == Unrolled(Shape(T, r))
  {
    if r == 0 {
      assert CellTable[2][0] == Unrolled(Shape(T, 0));
    } else if r == 1 {
      assert CellTable[2][1] == Unrolled(Shape(T, 1));
    } else if r == 2 {
      assert CellTable[2][2] == Unrolled(Shape(T, 2));
    } else {
      assert CellTable[2][3] == Unrolled(Shape(T, 3));
    }
  }

  lemma SEntries(r: Rotation)
    ensures CellTable[3][r] == Unrolled(Shape(S, r))
  {
    if r == 0 {
      assert CellTable[3][0] == Unrolled(Shape(S, 0));
    } else if r == 1 {
      assert CellTable[3][1] == Unrolled(Shape(S, 1));
    } else if r == 2 {
      assert CellTable[3][2] == Unrolled(Shape(S, 2));
    } else {
      assert CellTable[3][3] == Unrolled(Shape(S, 3));
    }
  }

  lemma ZEntries(r: Rotation)
    ensures CellTable[4][r] == Unrolled(Shape(Z, r))
  {
    if r == 0 {
      assert CellTable[4][0] == Unrolled(Shape(Z, 0));
    } else if r == 1 {
      assert CellTable[4][1] == Unrolled(Shape(Z, 1));
    } else if r == 2 {
      assert CellTable[4][2] == Unrolled(Shape(Z, 2));
    } else {
      assert CellTable[4][3] == Unrolled(Shape(Z, 3));
    }
  }

  lemma JEntries(r: Rotation)
    ensures CellTable[5][r] == Unrolled(Shape(J, r))
  {
    if r == 0 {
      assert CellTable[5][0] == Unrolled(Shape(J, 0));
    } else if r == 1 {
      assert CellTable[5][1] == Unrolled(Shape(J, 1));
    } else if r == 2 {
      assert CellTable[5][2] == Unrolled(Shape(J, 2));
    } else {
      assert CellTable[5][3] == Unrolled(Shape(J, 3));
    }
  }

  lemma LEntries(r: Rotation)
    ensures CellTable[6][r] == Unrolled(Shape(L, r))
  {
    if r == 0 {
      assert CellTable[6][0] == Unrolled(Shape(L, 0));
    } else if r == 1 {
      assert CellTable[6][1] == Unrolled(Shape(L, 1));
    } else if r == 2 {
      assert CellTable[6][2] == Unrolled(Shape(L, 2));
    } else {
      assert CellTable[6][3] == Unrolled(Shape(L, 3));
    }
  }

  /** What `get_occupied_cells` returns for kind `k` in rotation state `r`. */
  function OccupiedCells(k: Kind, r: Rotation): (cells: seq<Offset>)
    ensures IsPieceCells(cells)
  {
    CellTableIsScan(k, r);
    ShapeCellsArePieceCells(k, r);
    CellTable[KindIndex(k)][r]
  }

  /** The table entry for a kind and rotation is the row-major scan of its shape matrix. */
  lemma OccupiedCellsIsScan(k: Kind, r: Rotation)
    ensures OccupiedCells(k, r) == Scan(Shape(k, r), 4, 0)
  {
    CellTableIsScan(k, r);
  }

  /** An offset is scanned iff it lies in the frame, before the scan point, and its entry is set. */
  lemma {:induction false} ScanMembership(m: Matrix, row: nat, col: nat, p: Offset)
    requires IsMatrix(m) && AtPosition(row, col)
    ensures p in Scan(m, row, col) <==> 0 <= p.0 < 4 && 0 <= p.1 < 4 && Key(p) < 4 * row + col && m[p.0][p.1] != 0
    decreases row, col
  {
    if col > 0 {
      ScanMembership(m, row, col - 1, p);
    } else if row > 0 {
      ScanMembership(m, row - 1, 4, p);
    }
  }

  /** Scanned offsets come out in strictly increasing row-major order, before the scan point. */
  lemma {:induction false} ScanOrdered(m: Matrix, row: nat, col: nat)
    requires IsMatrix(m) && AtPosition(row, col)
    ensures forall i :: 0 <= i < |Scan(m, row, col)| ==> 0 <= Key(Scan(m, row, col)[i]) < 4 * row + col
    ensures forall i, j :: 0 <= i < j < |Scan(m, row, col)| ==> Key(Scan(m, row, col)[i]) < Key(Scan(m, row, col)[j])
    decreases row, col
  {
    if col > 0 {
      ScanOrdered(m, row, col - 1);
    } else if row > 0 {
      ScanOrdered(m, row - 1, 4);
    }
  }

  /** Every piece in every rotation state occupies exactly four cells. */
  lemma FourCells(k: Kind, r: Rotation)
    ensures |Scan(Shape(k, r), 4, 0)| == 4
  {
    CellTableIsScan(k, r);
    match k
    case I =>
    case O =>
    case T =>
    case S =>
    case Z =>
    case J =>
    case L =>
  }

  /**
   * The full scan of any matrix lists exactly its set entries, inside the
   * 4x4 frame and in strictly increasing row-major order.
   */
  lemma FrameScan(m: Matrix)
    requires IsMatrix(m)
    ensures var cells := Scan(m, 4, 0);
      && (forall i :: 0 <= i < |cells| ==> 0 <= cells[i].0 < 4 && 0 <= cells[i].1 < 4)
      && (forall i, j :: 0 <= i < j < |cells| ==> Key(cells[i]) < Key(cells[j]))
      && (forall row, col :: (row, col) in cells <==> 0 <= row < 4 && 0 <= col < 4 && m[row][col] != 0)
  {
    var cells := Scan(m, 4, 0);
    ScanOrdered(m, 4, 0);
    forall i | 0 <= i < |cells|
      ensures 0 <= cells[i].0 < 4 && 0 <= cells[i].1 < 4
    {
      ScanMembership(m, 4, 0, cells[i]);
    }
    forall row, col
      ensures (row, col) in cells <==> 0 <= row < 4 && 0 <= col < 4 && m[row][col] != 0
    {
      ScanMembership(m, 4, 0, (row, col));
    }
  }

  /**
   * For every kind and rotation state, the occupied cells are exactly the
   * set entries of the shape matrix: four of them, inside the 4x4 frame,
   * listed in row-major order (so no cell is listed twice).
   */
  lemma OccupiedCellsSpec(k: Kind, r: Rotation)
    ensures var cells := OccupiedCells(k, r);
      && |cells| == 4
      && (forall i :: 0 <= i < |cells| ==> 0 <= cells[i].0 < 4 && 0 <= cells[i].1 < 4)
      && (forall i, j :: 0 <= i < j < |cells| ==> Key(cells[i]) < Key(cells[j]))
      && (forall row, col :: (row, col) in cells <==> 0 <= row < 4 && 0 <= col < 4 && Shape(k, r)[row][col] == 1)
  {
    OccupiedCellsIsScan(k, r);
    FourCells(k, r);
    FrameScan(Shape(k, r));
  }

  /** The facts about a piece's cells that collision and dropping rely on. */
  predicate IsPieceCells(cells: seq<Offset>)
  {
    |cells| > 0 && forall i :: 0 <= i < |cells| ==> 0 <= cells[i].0 < 4 && 0 <= cells[i].1 < 4
  }

  lemma ShapeCellsArePieceCells(k: Kind, r: Rotation)
    ensures IsPieceCells(Scan(Shape(k, r), 4, 0))
  {
    FourCells(k, r);
    FrameScan(Shape(k, r));
  }

  /** All four rotation states of the O piece cover the same cells. */
  lemma OPieceNeverTurns(r: Rotation)
    ensures OccupiedCells(O, r) == OccupiedCells(O, 0)
  {
  }

  /**
   * A piece object. Its kind and colour are fixed at construction; its
   * rotation counter is turned in place.
   */
  class Piece {
    const kind: Kind
    const color: Color := ColorOf(kind)
    var rotation: Rotation

    /** A fresh piece of kind `k`, in rotation state 0. */
    constructor (k: Kind)
      ensures kind == k && rotation == 0 && color == ColorOf(k)
    {
      kind := k;
      rotation := 0;
    }

    function GetShape(): (m: Matrix)
      reads this
      ensures IsMatrix(m) && m == Shape(kind, rotation)
    {
      Shape(kind, rotation)
    }

    method RotateClockwise()
      modifies this
      ensures rotation == Clockwise(old(rotation))
    {
      rotation := (rotation + 1) % 4;
    }

    method RotateCounterClockwise()
      modifies this
      ensures rotation == CounterClockwise(old(rotation))
    {
      rotation := (rotation - 1) % 4;
    }

    /** The occupied cells of the current shape, collected row by row. */
    method GetOccupiedCells() returns (cells: seq<Offset>)
      ensures cells == OccupiedCells(kind, rotation)
    {
      cells := CollectCells(GetShape());
      OccupiedCellsIsScan(kind, rotation);
    }

    /** A new, independent piece object with the same kind and rotation. */
    method Copy() returns (p: Piece)
      ensures fresh(p)
      ensures p.kind == kind && p.rotation == rotation && p.color == color
    {
      p := new Piece(kind);
      p.rotation := rotation;
    }
  }

  /**
   * The nested row/column loop of `get_occupied_cells`: append each
   * set entry of `shape` in row-major order.
   */
  method CollectCells(shape: Matrix) returns (cells: seq<Offset>)
    requires IsMatrix(shape)
    ensures cells == Scan(shape, 4, 0)
  {
    cells := [];
    for row := 0 to 4
      invariant cells == Scan(shape, row, 0)
    {
      for col := 0 to 4
        invariant cells == Scan(shape, row, col)
      {
        if shape[row][col] != 0 {
          cells := cells + [(row, col)];
        }
      }
    }
  }

  /**
   * `Piece(piece_type)` from a type name: an unknown name is refused
   * (the source raises an error), a known one gives a fresh piece in
   * rotation state 0 with the colour of its kind.
   */
  method NewPiece(name: string) returns (p: Piece?)
    ensures p == null <==> ParseKind(name).None?
    ensures p != null ==> fresh(p) && KindName(p.kind) == name && p.rotation == 0 && p.color == ColorOf(p.kind)
  {
    match ParseKind(name)
    case None =>
      p := null;
    case Some(k) =>
      p := new Piece(k);
  }

  /** A copy is a separate object: turning it leaves the original as it was. */
  method CopyIsIndependent(original: Piece) returns (duplicate: Piece)
    ensures fresh(duplicate) && duplicate.kind == original.kind
    ensures original.rotation == old(original.rotation)
    ensures duplicate.rotation == Clockwise(original.rotation)
  {
    duplicate := original.Copy();
    duplicate.RotateClockwise();
  }
}
