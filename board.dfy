/**
 * The 10x20 playfield: a grid of optional colours, the collision test,
 * placing a piece, clearing full rows, the top-out test and the drop search.
 */
module Playfield {
  import opened Wrappers
  import opened Pieces

  const Width := 10
  const Height := 20

  type Cell = Option<Color>
  type Row = seq<Cell>
  type Grid = seq<Row>

  /** A grid of the board's dimensions: 20 rows of 10 cells. */
  predicate IsGrid(g: Grid)
  {
    |g| == Height && forall row :: 0 <= row < |g| ==> |g[row]| == Width
  }

  function EmptyRow(): (e: Row)
    ensures |e| == Width && forall col :: 0 <= col < |e| ==> e[col].None?
  {
    seq(Width, _ => None)
  }

  /** The grid a new or reset board holds. */
  function EmptyGrid(): (g: Grid)
    ensures IsGrid(g)
    ensures forall row, col :: 0 <= row < Height && 0 <= col < Width ==> g[row][col].None?
  {
    seq(Height, _ => EmptyRow())
  }

  // ---------------------------------------------------------------------
  // Collision
  // ---------------------------------------------------------------------

  /**
   * A piece cell landing at board coordinates (row, col) is acceptable iff
   * its column is on the board, its row is not below the bottom, and, when
   * the row is on the board, the grid cell there is empty. Rows above the
   * top are never checked against the grid.
   */
  predicate CellAllowed(g: Grid, row: int, col: int)
    requires IsGrid(g)
  {
    0 <= col < Width && row < Height && (0 <= row ==> g[row][col].None?)
  }

  /** Every one of `cells`, offset by (y, x), is acceptable. */
  predicate Fits(g: Grid, cells: seq<Offset>, x: int, y: int)
    requires IsGrid(g)
  {
    forall i :: 0 <= i < |cells| ==> CellAllowed(g, y + cells[i].0, x + cells[i].1)
  }

  /** A position that fits is never below the bottom row: every piece has a cell at row offset 0 or more. */
  lemma FitsIsAboveBottom(g: Grid, cells: seq<Offset>, x: int, y: int)
    requires IsGrid(g) && IsPieceCells(cells) && Fits(g, cells, x, y)
    ensures y < Height
  {
    assert CellAllowed(g, y + cells[0].0, x + cells[0].1);
  }

  // ---------------------------------------------------------------------
  // Placing
  // ---------------------------------------------------------------------

  /** Write `color` at (row, col) if that cell is on the board. */
  function Paint(g: Grid, row: int, col: int, color: Color): (p: Grid)
    requires IsGrid(g)
    ensures IsGrid(p)
  {
    if 0 <= row < Height && 0 <= col < Width then g[row := g[row][col := Some(color)]] else g
  }

  /** The grid after painting `cells`, offset by (y, x), one after the other. */
  function Place(g: Grid, cells: seq<Offset>, x: int, y: int, color: Color): (p: Grid)
    requires IsGrid(g)
    ensures IsGrid(p)
    decreases |cells|
  {
    if cells == [] then g
    else Place(Paint(g, y + cells[0].0, x + cells[0].1, color), cells[1..], x, y, color)
  }

  /**
   * Placing colours exactly the piece cells that fall inside the grid; every
   * other cell keeps its old content.
   */
  lemma {:induction false} PlaceColorsExactlyThePieceCells(g: Grid, cells: seq<Offset>, x: int, y: int, color: Color)
    requires IsGrid(g)
    ensures forall row, col :: 0 <= row < Height && 0 <= col < Width ==>
      Place(g, cells, x, y, color)[row][col] == if (row - y, col - x) in cells then Some(color) else g[row][col]
    decreases |cells|
  {
    if cells != [] {
      var g' := Paint(g, y + cells[0].0, x + cells[0].1, color);
      PlaceColorsExactlyThePieceCells(g', cells[1..], x, y, color);
      forall row, col | 0 <= row < Height && 0 <= col < Width
        ensures Place(g, cells, x, y, color)[row][col] == if (row - y, col - x) in cells then Some(color) else g[row][col]
      {
        assert (row - y, col - x) in cells <==> (row - y, col - x) == cells[0] || (row - y, col - x) in cells[1..];
      }
    }
  }

  // ---------------------------------------------------------------------
  // Dropping
  // ---------------------------------------------------------------------

  /** The row a piece with `cells` reaches by moving down from row `y` while the next row fits. */
  function DropRow(g: Grid, cells: seq<Offset>, x: int, y: int): int
    requires IsGrid(g) && IsPieceCells(cells)
    decreases Height - y
  {
    if Fits(g, cells, x, y + 1) then
      FitsIsAboveBottom(g, cells, x, y + 1);
      DropRow(g, cells, x, y + 1)
    else y
  }

  /** One step of the drop search: go on from `y + 1` if it fits, else stop at `y`. */
  lemma DropRowStep(g: Grid, cells: seq<Offset>, x: int, y: int)
    requires IsGrid(g) && IsPieceCells(cells)
    ensures Fits(g, cells, x, y + 1) ==> y + 1 < Height && DropRow(g, cells, x, y) == DropRow(g, cells, x, y + 1)
    ensures !Fits(g, cells, x, y + 1) ==> DropRow(g, cells, x, y) == y
  {
    if Fits(g, cells, x, y + 1) {
      FitsIsAboveBottom(g, cells, x, y + 1);
    }
  }

  /**
   * The drop row is at or below the start, the row under it does not fit,
   * and every row passed on the way down fits.
   */
  lemma {:induction false} DropRowSpec(g: Grid, cells: seq<Offset>, x: int, y: int)
    requires IsGrid(g) && IsPieceCells(cells)
    ensures var d := DropRow(g, cells, x, y);
      && y <= d
      && !Fits(g, cells, x, d + 1)
      && forall z :: y < z <= d ==> Fits(g, cells, x, z)
    decreases Height - y
  {
    if Fits(g, cells, x, y + 1) {
      FitsIsAboveBottom(g, cells, x, y + 1);
      DropRowSpec(g, cells, x, y + 1);
    }
  }

  /**
   * On an empty grid a piece that fits falls until its lowest cell sits on
   * the bottom row: every cell ends on or above row `Height - 1`, and one
   * of them on it.
   */
  lemma DropOnEmptyGrid(cells: seq<Offset>, x: int, y: int)
    requires IsPieceCells(cells) && Fits(EmptyGrid(), cells, x, y)
    ensures var d := DropRow(EmptyGrid(), cells, x, y);
      && (forall i :: 0 <= i < |cells| ==> d + cells[i].0 <= Height - 1)
      && (exists i :: 0 <= i < |cells| && d + cells[i].0 == Height - 1)
  {
    var g := EmptyGrid();
    var d := DropRow(g, cells, x, y);
    DropRowSpec(g, cells, x, y);
    assert Fits(g, cells, x, d);
    var i :| 0 <= i < |cells| && !CellAllowed(g, d + 1 + cells[i].0, x + cells[i].1);
    assert CellAllowed(g, d + cells[i].0, x + cells[i].1);
  }

  // ---------------------------------------------------------------------
  // Full rows
  // ---------------------------------------------------------------------

  predicate Full(row: Row)
  {
    forall col :: 0 <= col < |row| ==> row[col].Some?
  }

  /** The indices of the full rows among the first `n` rows, ascending. */
  function FullRowsUpTo(g: Grid, n: nat): seq<int>
    requires n <= |g|
  {
    if n == 0 then []
    else FullRowsUpTo(g, n - 1) + (if Full(g[n - 1]) then [n - 1] else [])
  }

  /** The indices of all full rows, ascending: the `lines_to_clear` list. */
  function FullRows(g: Grid): seq<int>
  {
    FullRowsUpTo(g, |g|)
  }

  /** `FullRowsUpTo` lists exactly the full rows below `n`, each once, in ascending order. */
  lemma {:induction false} FullRowsUpToExact(g: Grid, n: nat)
    requires n <= |g|
    ensures forall i :: i in FullRowsUpTo(g, n) <==> 0 <= i < n && Full(g[i])
    ensures forall i, j :: 0 <= i < j < |FullRowsUpTo(g, n)| ==> FullRowsUpTo(g, n)[i] < FullRowsUpTo(g, n)[j]
  {
    if n > 0 {
      FullRowsUpToExact(g, n - 1);
      var before := FullRowsUpTo(g, n - 1);
      forall i | 0 <= i < |before|
        ensures before[i] < n - 1
      {
        assert before[i] in before;
      }
    }
  }

  /** Rows `a` to `b` hold no full row, so the list does not grow between them. */
  lemma {:induction false} FullRowsSkip(g: Grid, a: nat, b: nat)
    requires a <= b <= |g|
    requires forall i :: a <= i < b ==> !Full(g[i])
    ensures FullRowsUpTo(g, b) == FullRowsUpTo(g, a)
    decreases b - a
  {
    if a < b {
      FullRowsSkip(g, a, b - 1);
    }
  }

  // ---------------------------------------------------------------------
  // Clearing rows, as the source's loop does it
  // ---------------------------------------------------------------------

  /** `sorted(rows, reverse=True)` for a list that is already ascending. */
  function Reverse(s: seq<int>): (t: seq<int>)
    ensures |t| == |s|
    ensures forall i :: 0 <= i < |s| ==> t[i] == s[|s| - 1 - i]
  {
    if s == [] then [] else Reverse(s[1..]) + [s[0]]
  }

  /** `del grid[row]` followed by `grid.insert(0, <empty row>)`. */
  function DeleteRow(g: Grid, row: int): (d: Grid)
    requires 0 <= row < |g|
    ensures |d| == |g|
  {
    [EmptyRow()] + (g[..row] + g[row + 1..])
  }

  /** Delete-and-insert for each index of `rows` in turn; the grid keeps its height throughout. */
  function ApplyDeletes(g: Grid, rows: seq<int>): (d: Grid)
    requires forall i :: 0 <= i < |rows| ==> 0 <= rows[i] < |g|
    ensures |d| == |g|
    decreases |rows|
  {
    if rows == [] then g else ApplyDeletes(DeleteRow(g, rows[0]), rows[1..])
  }

  /**
   * What `clear_lines` leaves in the grid: the full rows are looked up
   * once, and then each is deleted by its ORIGINAL index, highest first,
   * with an empty row inserted at the top after every deletion.
   */
  function ClearAsWritten(g: Grid): (d: Grid)
    ensures |d| == |g|
  {
    DescendingFullRowsInRange(g);
    ApplyDeletes(g, Reverse(FullRows(g)))
  }

  /** The deletion order only names rows of the grid. */
  lemma DescendingFullRowsInRange(g: Grid)
    ensures forall i :: 0 <= i < |Reverse(FullRows(g))| ==> 0 <= Reverse(FullRows(g))[i] < |g|
  {
    var s := FullRows(g);
    FullRowsUpToExact(g, |g|);
    forall i | 0 <= i < |s|
      ensures 0 <= Reverse(s)[i] < |g|
    {
      assert s[|s| - 1 - i] in s;
    }
  }

  /** Deleting rows keeps every row 10 cells wide. */
  lemma {:induction false} ApplyDeletesKeepsWidth(g: Grid, rows: seq<int>)
    requires IsGrid(g)
    requires forall i :: 0 <= i < |rows| ==> 0 <= rows[i] < |g|
    ensures IsGrid(ApplyDeletes(g, rows))
    decreases |rows|
  {
    if rows != [] {
      var d := DeleteRow(g, rows[0]);
      assert IsGrid(d) by {
        forall i | 0 <= i < |d| ensures |d[i]| == Width {
          if i > 0 {
            if i <= rows[0] { assert d[i] == g[i - 1]; } else { assert d[i] == g[i]; }
          }
        }
      }
      ApplyDeletesKeepsWidth(d, rows[1..]);
    }
  }

  /** `clear_lines` keeps the board's dimensions. */
  lemma ClearAsWrittenKeepsDimensions(g: Grid)
    requires IsGrid(g)
    ensures IsGrid(ClearAsWritten(g))
  {
    DescendingFullRowsInRange(g);
    ApplyDeletesKeepsWidth(g, Reverse(FullRows(g)));
  }

  /** All rows other than `r` are not full: then `r` is the only entry of the full-row list. */
  lemma OnlyFullRow(g: Grid, r: int)
    requires 0 <= r < |g|
    requires forall i :: 0 <= i < |g| ==> (Full(g[i]) <==> i == r)
    ensures FullRows(g) == [r]
  {
    FullRowsSkip(g, 0, r);
    FullRowsSkip(g, r + 1, |g|);
  }

  /**
   * With exactly one full row r, `clear_lines` removes r, moves rows
   * 0..r-1 down by one, puts an empty row at the top and leaves the rows
   * below r where they were.
   */
  lemma ClearAsWrittenOneFullRow(g: Grid, r: int)
    requires IsGrid(g) && 0 <= r < |g|
    requires forall i :: 0 <= i < |g| ==> (Full(g[i]) <==> i == r)
    ensures var d := ClearAsWritten(g);
      && |FullRows(g)| == 1
      && d[0] == EmptyRow()
      && (forall i :: 0 <= i < r ==> d[i + 1] == g[i])
      && (forall i :: r < i < |g| ==> d[i] == g[i])
  {
    ClearAsWrittenOfOneRow(g, r);
  }

  /** Only row `r` is full, so the descending deletion list is `[r]` and a single delete-and-insert is made. */
  lemma ClearAsWrittenOfOneRow(g: Grid, r: int)
    requires IsGrid(g) && 0 <= r < |g|
    requires forall i :: 0 <= i < |g| ==> (Full(g[i]) <==> i == r)
    ensures FullRows(g) == [r]
    ensures ClearAsWritten(g) == DeleteRow(g, r)
  {
    OnlyFullRow(g, r);
    var rows := Reverse(FullRows(g));
    assert rows == [r];
    assert rows[1..] == [];
    assert ApplyDeletes(g, rows) == ApplyDeletes(DeleteRow(g, r), []);
  }

  // ---------------------------------------------------------------------
  // Clearing rows, as intended
  // ---------------------------------------------------------------------

  /** The rows among the first `n` that are not full, in their original order. */
  function KeptRows(g: Grid, n: nat): seq<Row>
    requires n <= |g|
  {
    if n == 0 then []
    else KeptRows(g, n - 1) + (if Full(g[n - 1]) then [] else [g[n - 1]])
  }

  function EmptyRows(n: nat): (e: seq<Row>)
    ensures |e| == n && forall i :: 0 <= i < n ==> e[i] == EmptyRow()
  {
    seq(n, _ => EmptyRow())
  }

  /**
   * Line clearing as the game intends it: every full row disappears, the
   * other rows keep their relative order and sink to the bottom, and as
   * many empty rows as were removed appear at the top.
   */
  function ClearFull(g: Grid): (d: seq<Row>)
    ensures |d| == |g|
  {
    KeptPlusFull(g, |g|);
    EmptyRows(|FullRows(g)|) + KeptRows(g, |g|)
  }

  /** Every row is either kept or counted as full. */
  lemma {:induction false} KeptPlusFull(g: Grid, n: nat)
    requires n <= |g|
    ensures |KeptRows(g, n)| + |FullRowsUpTo(g, n)| == n
  {
    if n > 0 {
      KeptPlusFull(g, n - 1);
    }
  }

  /** Exactly the rows of `g[..n]` that are not full are kept. */
  lemma {:induction false} KeptRowsExact(g: Grid, n: nat)
    requires n <= |g|
    ensures forall row :: row in KeptRows(g, n) ==> !Full(row) && row in g[..n]
    ensures forall i :: 0 <= i < n && !Full(g[i]) ==> g[i] in KeptRows(g, n)
  {
    if n > 0 {
      KeptRowsExact(g, n - 1);
      assert g[..n] == g[..n - 1] + [g[n - 1]];
    }
  }

  /** Between `a` and `b` no row is full, so that block is kept whole. */
  lemma {:induction false} KeptRowsBlock(g: Grid, a: nat, b: nat)
    requires a <= b <= |g|
    requires forall i :: a <= i < b ==> !Full(g[i])
    ensures KeptRows(g, b) == KeptRows(g, a) + g[a..b]
    decreases b - a
  {
    if a < b {
      KeptRowsBlock(g, a, b - 1);
      assert g[a..b] == g[a..b - 1] + [g[b - 1]];
    }
  }

  /**
   * Intended clearing keeps the board's dimensions, leaves no full row,
   * keeps every row that was not full, and opens as many empty rows at the
   * top as there were full rows.
   */
  lemma ClearFullSpec(g: Grid)
    requires IsGrid(g)
    ensures var d := ClearFull(g); var n := |FullRows(g)|;
      && IsGrid(d)
      && (forall i :: 0 <= i < |d| ==> !Full(d[i]))
      && (forall i :: 0 <= i < n ==> d[i] == EmptyRow())
      && d[n..] == KeptRows(g, |g|)
      && (forall i :: 0 <= i < |g| && !Full(g[i]) ==> g[i] in d)
  {
    var d := ClearFull(g);
    var n := |FullRows(g)|;
    KeptPlusFull(g, |g|);
    KeptRowsExact(g, |g|);
    assert g[..|g|] == g;
    assert !Full(EmptyRow()) by { assert EmptyRow()[0].None?; }
    forall i | 0 <= i < |d|
      ensures |d[i]| == Width && !Full(d[i])
    {
      if i >= n {
        assert d[i] in KeptRows(g, |g|);
      }
    }
    forall i | 0 <= i < |g| && !Full(g[i])
      ensures g[i] in d
    {
      assert g[i] in KeptRows(g, |g|);
    }
  }

  /** With at most one full row, the source's loop clears exactly as intended. */
  lemma ClearAsWrittenMatchesIntendedForOneRow(g: Grid, r: int)
    requires IsGrid(g) && 0 <= r < |g|
    requires forall i :: 0 <= i < |g| ==> (Full(g[i]) <==> i == r)
    ensures ClearAsWritten(g) == ClearFull(g)
  {
    ClearAsWrittenOfOneRow(g, r);
    assert EmptyRows(1) == [EmptyRow()];
    KeptRowsBlock(g, 0, r);
    KeptRowsBlock(g, r + 1, |g|);
    assert KeptRows(g, r + 1) == KeptRows(g, r);
    assert g[0..r] == g[..r];
    assert g[r + 1..|g|] == g[r + 1..];
  }

  function SolidRow(): (f: Row)
    ensures |f| == Width && Full(f)
  {
    seq(Width, _ => Some(ColorOf(I)))
  }

  /** A board whose rows 5 and 19 are full and whose other rows are empty. */
  function TwoFullRows(): (g: Grid)
    ensures |g| == Height
    ensures forall row :: 0 <= row < |g| ==> g[row] == if row == 5 || row == 19 then SolidRow() else EmptyRow()
    ensures IsGrid(g)
  {
    seq(Height, row => if row == 5 || row == 19 then SolidRow() else EmptyRow())
  }

  /**
   * The source's loop on full rows {5, 19}: deleting row 19 first shifts
   * everything above it down by one, so the second deletion by the
   * original index 5 removes the once-empty row 4, and the full row 5
   * survives (now at index 6). The intended clearing leaves no full row.
   */
  lemma ClearAsWrittenKeepsAFullRow()
    ensures FullRows(TwoFullRows()) == [5, 19]
    ensures Full(ClearAsWritten(TwoFullRows())[6])
    ensures forall i :: 0 <= i < Height ==> !Full(ClearFull(TwoFullRows())[i])
  {
    var g := TwoFullRows();
    TwoFullRowsAreFiveAndNineteen();
    SecondDeletionMissesRowFive();
    assert g[5] == SolidRow();
    ClearFullSpec(g);
  }

  /** The deletions go by original indices 19 and then 5; the second one hits old row 4. */
  lemma SecondDeletionMissesRowFive()
    requires FullRows(TwoFullRows()) == [5, 19]
    ensures ClearAsWritten(TwoFullRows())[6] == TwoFullRows()[5]
  {
    var g := TwoFullRows();
    var rows := Reverse(FullRows(g));
    assert rows == [19, 5];
    var d1 := DeleteRow(g, 19);
    var d2 := DeleteRow(d1, 5);
    assert rows[1..] == [5] && rows[1..][1..] == [];
    assert ApplyDeletes(d1, [5]) == ApplyDeletes(d2, []);
    assert ClearAsWritten(g) == d2;
    assert d2[6] == d1[6] == g[5];
  }

  lemma TwoFullRowsAreFiveAndNineteen()
    ensures FullRows(TwoFullRows()) == [5, 19]
  {
    var g := TwoFullRows();
    assert Full(g[5]) && Full(g[19]);
    forall i | 0 <= i < Height && i != 5 && i != 19
      ensures !Full(g[i])
    {
      assert g[i] == EmptyRow();
      assert g[i][0].None?;
    }
    FullRowsSkip(g, 0, 5);
    FullRowsSkip(g, 6, 19);
    assert FullRowsUpTo(g, 6) == [5];
    assert FullRowsUpTo(g, 20) == [5, 19];
  }

  /** The number of indices in the full-row list is the number of full rows. */
  lemma {:induction false} FullRowsCount(g: Grid, n: nat)
    requires n <= |g|
    ensures |FullRowsUpTo(g, n)| == |set i | 0 <= i < n && Full(g[i])|
  {
    if n > 0 {
      FullRowsCount(g, n - 1);
      var before := set i | 0 <= i < n - 1 && Full(g[i]);
      var after := set i | 0 <= i < n && Full(g[i]);
      if Full(g[n - 1]) {
        assert after == before + {n - 1};
      } else {
        assert after == before;
      }
    }
  }

  /** Some cell of this row is occupied. */
  predicate Occupied(row: Row)
  {
    exists col :: 0 <= col < |row| && row[col].Some?
  }

  /** The top-out condition: a cell of row 0 or row 1 is occupied. */
  predicate TopOccupied(g: Grid)
    requires IsGrid(g)
  {
    exists row, col :: 0 <= row < 2 && 0 <= col < Width && g[row][col].Some?
  }

  // ---------------------------------------------------------------------
  // The board object
  // ---------------------------------------------------------------------

  class Board {
    var grid: Grid

    ghost predicate Valid()
      reads this
    {
      IsGrid(grid)
    }

    constructor ()
      ensures Valid() && grid == EmptyGrid()
    {
      grid := EmptyGrid();
    }

    /**
     * `is_valid_position`: walks the piece's cells and returns false at the
     * first one that is off the sides, below the bottom, or on an occupied
     * cell; cells above the top are skipped.
     */
    method IsValidPosition(piece: Piece, x: int, y: int) returns (ok: bool)
      requires Valid()
      ensures ok == Fits(grid, OccupiedCells(piece.kind, piece.rotation), x, y)
    {
      var cells := piece.GetOccupiedCells();
      for i := 0 to |cells|
        invariant forall j :: 0 <= j < i ==> CellAllowed(grid, y + cells[j].0, x + cells[j].1)
      {
        var (cellRow, cellCol) := cells[i];
        var boardRow := y + cellRow;
        var boardCol := x + cellCol;
        if boardCol < 0 || boardCol >= Width {
          return false;
        }
        if boardRow >= Height {
          return false;
        }
        if boardRow < 0 {
          continue;
        }
        if grid[boardRow][boardCol].Some? {
          return false;
        }
      }
      return true;
    }

    /** `place_piece`: paint the piece's colour into each of its cells that lies on the grid. */
    method PlacePiece(piece: Piece, x: int, y: int)
      requires Valid()
      modifies this
      ensures Valid()
      ensures grid == Place(old(grid), OccupiedCells(piece.kind, piece.rotation), x, y, piece.color)
      ensures forall row, col :: 0 <= row < Height && 0 <= col < Width ==>
        grid[row][col] == if (row - y, col - x) in OccupiedCells(piece.kind, piece.rotation) then Some(piece.color) else old(grid)[row][col]
    {
      var cells := piece.GetOccupiedCells();
      PaintCells(cells, x, y, piece.color);
      PlaceColorsExactlyThePieceCells(old(grid), cells, x, y, piece.color);
    }

    /** The loop of `place_piece`: paint each cell, offset by (y, x), that lands inside the grid. */
    method PaintCells(cells: seq<Offset>, x: int, y: int, color: Color)
      requires Valid()
      modifies this
      ensures Valid()
      ensures grid == Place(old(grid), cells, x, y, color)
    {
      for i := 0 to |cells|
        invariant IsGrid(grid)
        invariant Place(grid, cells[i..], x, y, color) == Place(old(grid), cells, x, y, color)
      {
        var (cellRow, cellCol) := cells[i];
        var boardRow := y + cellRow;
        var boardCol := x + cellCol;
        assert cells[i..][1..] == cells[i + 1..];
        if 0 <= boardRow < Height && 0 <= boardCol < Width {
          grid := grid[boardRow := grid[boardRow][boardCol := Some(color)]];
        }
      }
      assert cells[|cells|..] == [];
    }

    /**
     * `clear_lines` as written: collect the full rows, then for each of
     * them, highest first, delete it by its original index and insert an
     * empty row at the top. Returns how many rows were full.
     */
    method ClearLines() returns (count: int)
      requires Valid()
      modifies this
      ensures Valid()
      ensures grid == ClearAsWritten(old(grid))
      ensures count == |FullRows(old(grid))| == |set i | 0 <= i < Height && Full(old(grid)[i])|
    {
      var linesToClear := [];
      for row := 0 to Height
        invariant linesToClear == FullRowsUpTo(grid, row)
      {
        if Full(grid[row]) {
          linesToClear := linesToClear + [row];
        }
      }
      FullRowsCount(grid, Height);
      DescendingFullRowsInRange(grid);
      ClearAsWrittenKeepsDimensions(grid);
      var order := Reverse(linesToClear);
      for i := 0 to |order|
        invariant |grid| == Height
        invariant ApplyDeletes(grid, order[i..]) == ClearAsWritten(old(grid))
      {
        var row := order[i];
        assert order[i..][1..] == order[i + 1..];
        grid := grid[..row] + grid[row + 1..];
        grid := [EmptyRow()] + grid;
      }
      assert order[|order|..] == [];
      count := |linesToClear|;
    }

    /**
     * Line clearing as intended: keep the rows that are not full, in order,
     * under as many empty rows as there were full ones.
     */
    method ClearFullRows() returns (count: int)
      requires Valid()
      modifies this
      ensures Valid()
      ensures grid == ClearFull(old(grid))
      ensures count == |FullRows(old(grid))| == |set i | 0 <= i < Height && Full(old(grid)[i])|
    {
      var kept := [];
      count := 0;
      for row := 0 to Height
        invariant kept == KeptRows(grid, row)
        invariant count == |FullRowsUpTo(grid, row)|
      {
        if Full(grid[row]) {
          count := count + 1;
        } else {
          kept := kept + [grid[row]];
        }
      }
      FullRowsCount(grid, Height);
      ClearFullSpec(grid);
      grid := EmptyRows(count) + kept;
    }

    /** `is_game_over`: rows 0 and 1 are scanned for an occupied cell. */
    method IsGameOver() returns (over: bool)
      requires Valid()
      ensures over == TopOccupied(grid)
    {
      for row := 0 to 2
        invariant forall r :: 0 <= r < row ==> !Occupied(grid[r])
      {
        if Occupied(grid[row]) {
          return true;
        }
      }
      return false;
    }

    /** `get_drop_position`: move down while the next row is valid. */
    method GetDropPosition(piece: Piece, x: int, y: int) returns (dropY: int)
      requires Valid()
      ensures dropY == DropRow(grid, OccupiedCells(piece.kind, piece.rotation), x, y)
    {
      ghost var cells := OccupiedCells(piece.kind, piece.rotation);
      dropY := y;
      var below := IsValidPosition(piece, x, dropY + 1);
      while below
        invariant below == Fits(grid, cells, x, dropY + 1)
        invariant DropRow(grid, cells, x, dropY) == DropRow(grid, cells, x, y)
        decreases Height - dropY
      {
        DropRowStep(grid, cells, x, dropY);
        dropY := dropY + 1;
        below := IsValidPosition(piece, x, dropY + 1);
      }
      DropRowStep(grid, cells, x, dropY);
    }

    /** `get_state`: a copy of the grid (a value, so later changes to the board do not reach it). */
    method GetState() returns (state: Grid)
      requires Valid()
      ensures IsGrid(state) && state == grid
    {
      state := grid;
    }

    /** `set_state`: replace the grid by a copy of `state`. */
    method SetState(state: Grid)
      requires IsGrid(state)
      modifies this
      ensures Valid() && grid == state
    {
      grid := state;
    }

    method Reset()
      modifies this
      ensures Valid() && grid == EmptyGrid()
    {
      grid := EmptyGrid();
    }
  }

  /**
   * A snapshot taken by `GetState` is not affected by later placements,
   * and restoring it with `SetState` gives back the grid it was taken from.
   */
  method SnapshotSurvivesMutation(b: Board, p: Piece)
    requires b.Valid()
    modifies b
    ensures b.Valid() && b.grid == old(b.grid)
  {
    var saved := b.GetState();
    b.PlacePiece(p, 3, 0);
    var n := b.ClearLines();
    assert saved == old(b.grid);
    b.SetState(saved);
  }
}
