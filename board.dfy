/** The board object: its size `n`, its rows, the in-place toggle and the conflict queries,
    each query proved equal to its verdict in module Conflicts. */
module Boards {
  import opened Outcomes
  import opened Matrices
  import opened Conflicts

  class Board {
    /** The `n` attribute: fixed when the board is built. */
    const n: nat
    /** The row attributes `0 .. n - 1`. */
    var cells: Matrix

    ghost predicate Valid()
      reads this
    {
      |cells| == n && WellFormed(cells)
    }

    /** `new Board({n: size})`: an empty board. */
    constructor FromSize(size: nat)
      ensures Valid() && n == size && cells == EmptyMatrix(size)
    {
      n := size;
      cells := EmptyMatrix(size);
    }

    /** `new Board(matrix)`: the size is the number of rows. */
    constructor FromMatrix(matrix: Matrix)
      requires WellFormed(matrix)
      ensures Valid() && n == |matrix| && cells == matrix
    {
      n := |matrix|;
      cells := matrix;
    }

    /** `rows()`: the row attributes `0 .. n - 1` in order. */
    function Rows(): (rows: Matrix)
      reads this
      requires Valid()
      ensures |rows| == n && rows == cells
    {
      cells[..n]
    }

    /** `togglePiece(r, c)`: overwrites one cell of row `r` with `+ !cell`. */
    method TogglePiece(r: int, c: int)
      requires Valid() && IsInBounds(r, c)
      modifies this
      ensures Valid() && cells == Toggled(old(cells), r, c)
    {
      var row := cells[r];
      cells := cells[r := row[c := Flip(row[c])]];
    }

    /** `_isInBounds(r, c)`, on the board's own size: `(r, c)` names a cell of the board. */
    function IsInBounds(r: int, c: int): (b: bool)
      reads this
      requires Valid()
      ensures b <==> 0 <= r < |cells| && 0 <= c < |cells[r]|
    {
      InBounds(n, r, c)
    }

    /** `hasRowConflictAt(r)`; a row that does not exist raises a TypeError. */
    method HasRowConflictAt(r: int) returns (res: Result<bool>)
      requires Valid()
      ensures res == if 0 <= r < n then Ok(RowConflict(cells, r)) else Err(TypeError)
    {
      var allRows := Rows();
      if !(0 <= r < |allRows|) {
        return Err(TypeError);
      }
      var count := 0;
      var searchThisRow := allRows[r];
      for i := 0 to |searchThisRow|
        invariant count == Ones(searchThisRow[..i])
      {
        OnesStep(searchThisRow, i);
        if searchThisRow[i] == 1 {
          count := count + 1;
        }
      }
      assert searchThisRow[..|searchThisRow|] == searchThisRow;
      return Ok(count > 1);
    }

    /** `hasAnyRowConflicts()`: checks every row, without stopping early. */
    method HasAnyRowConflicts() returns (conflict: bool)
      requires Valid()
      ensures conflict == AnyRowConflict(cells)
    {
      var allRows := Rows();
      conflict := false;
      for i := 0 to |allRows|
        invariant conflict <==> exists j :: 0 <= j < i && RowConflict(cells, j)
      {
        var atRow := HasRowConflictAt(i);
        if atRow.value {
          conflict := true;
        }
      }
    }

    /** `hasColConflictAt(c)`; a column off the board reads `undefined` in every row and
        so has no conflict. */
    method HasColConflictAt(c: int) returns (conflict: bool)
      requires Valid()
      ensures conflict == ColConflict(cells, c)
    {
      var columns := Rows();
      ghost var line := ColumnLine(cells, c);
      var count := 0;
      for i := 0 to |columns|
        invariant count == Ones(line[..i])
      {
        OnesStep(line, i);
        if 0 <= c < |columns[i]| && columns[i][c] == 1 {
          count := count + 1;
        }
      }
      assert line[..|columns|] == line;
      conflict := count > 1;
    }

    /** `hasAnyColConflicts()`: checks every column, without stopping early. */
    method HasAnyColConflicts() returns (conflict: bool)
      requires Valid()
      ensures conflict == AnyColConflict(cells)
    {
      conflict := false;
      var column := Rows();
      for x := 0 to |column|
        invariant conflict <==> exists j :: 0 <= j < x && ColConflict(cells, j)
      {
        var atCol := HasColConflictAt(x);
        if atCol {
          conflict := true;
        }
      }
    }

    /** `hasMajorDiagonalConflictAt(d)`: walks the cells of key `d` from the top-left edge
        to the bottom-right edge, counting pieces. */
    method HasMajorDiagonalConflictAt(d: int) returns (conflict: bool)
      requires Valid()
      ensures conflict == MajorConflict(cells, d)
    {
      var rows := Rows();
      ghost var line := MajorLine(cells, d);
      var first, end := MajorFirstRow(n, d), MajorEndRow(n, d);
      var count := 0;
      var r, c := first, first + d;
      while r < end
        invariant first <= r <= if first < end then end else first
        invariant c == r + d
        invariant count == Ones(line[..r - first])
      {
        OnesStep(line, r - first);
        assert line[r - first] == At(cells, r, c);
        if rows[r][c] == 1 {
          count := count + 1;
        }
        r, c := r + 1, c + 1;
      }
      assert line[..r - first] == line;
      conflict := count > 1;
    }

    /** `hasAnyMajorDiagonalConflicts()`: checks every key `1 - n .. n - 1`. */
    method HasAnyMajorDiagonalConflicts() returns (conflict: bool)
      requires Valid()
      ensures conflict == AnyMajorConflict(cells)
    {
      var rows := Rows();
      conflict := false;
      var d := 1 - |rows|;
      while d < |rows|
        invariant 1 - n <= d <= if n == 0 then 1 else n
        invariant conflict <==> exists e :: 1 - n <= e < d && MajorConflict(cells, e)
      {
        var atKey := HasMajorDiagonalConflictAt(d);
        if atKey {
          conflict := true;
        }
        d := d + 1;
      }
    }

    /** `hasMinorDiagonalConflictAt(k)`: walks the cells of key `k` from the top-right edge
        to the bottom-left edge, counting pieces. */
    method HasMinorDiagonalConflictAt(k: int) returns (conflict: bool)
      requires Valid()
      ensures conflict == MinorConflict(cells, k)
    {
      var rows := Rows();
      ghost var line := MinorLine(cells, k);
      var first, end := MinorFirstRow(n, k), MinorEndRow(n, k);
      var count := 0;
      var r, c := first, k - first;
      while r < end
        invariant first <= r <= if first < end then end else first
        invariant c == k - r
        invariant count == Ones(line[..r - first])
      {
        OnesStep(line, r - first);
        assert line[r - first] == At(cells, r, c);
        if rows[r][c] == 1 {
          count := count + 1;
        }
        r, c := r + 1, c - 1;
      }
      assert line[..r - first] == line;
      conflict := count > 1;
    }

    /** `hasAnyMinorDiagonalConflicts()`: checks every key `0 .. 2n - 2`. */
    method HasAnyMinorDiagonalConflicts() returns (conflict: bool)
      requires Valid()
      ensures conflict == AnyMinorConflict(cells)
    {
      var rows := Rows();
      conflict := false;
      var k := 0;
      while k < 2 * |rows| - 1
        invariant 0 <= k <= if n == 0 then 0 else 2 * n - 1
        invariant conflict <==> exists e :: 0 <= e < k && MinorConflict(cells, e)
      {
        var atKey := HasMinorDiagonalConflictAt(k);
        if atKey {
          conflict := true;
        }
        k := k + 1;
      }
    }

    /** `hasAnyRooksConflicts()`: rows first; columns only when no row conflicts. */
    method HasAnyRooksConflicts() returns (conflict: bool)
      requires Valid()
      ensures conflict == AnyRooksConflict(cells)
    {
      conflict := HasAnyRowConflicts();
      if !conflict {
        conflict := HasAnyColConflicts();
      }
    }

    /** `hasAnyQueensConflicts()`: rooks, then major, then minor diagonals. */
    method HasAnyQueensConflicts() returns (conflict: bool)
      requires Valid()
      ensures conflict == AnyQueensConflict(cells)
    {
      conflict := HasAnyRooksConflicts();
      if !conflict {
        conflict := HasAnyMajorDiagonalConflicts();
      }
      if !conflict {
        conflict := HasAnyMinorDiagonalConflicts();
      }
    }

    /** `hasAnyQueenConflictsOn(r, c)`: the row check runs first, so a row that does not
        exist raises its TypeError. */
    method HasAnyQueenConflictsOn(r: int, c: int) returns (res: Result<bool>)
      requires Valid()
      ensures res == if 0 <= r < n then Ok(QueenConflictOn(cells, r, c)) else Err(TypeError)
    {
      res := HasRowConflictAt(r);
      if res.Err? || res.value {
        return;
      }
      var conflict := HasColConflictAt(c);
      if !conflict {
        conflict := HasMajorDiagonalConflictAt(MajorKey(r, c));
      }
      if !conflict {
        conflict := HasMinorDiagonalConflictAt(MinorKey(r, c));
      }
      res := Ok(conflict);
    }
  }
}
