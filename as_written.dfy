/** The diagonal queries exactly as the board's code has them, next to the key-based
    queries of module Conflicts that the rest of the model uses. */
module AsWritten {
  import opened Outcomes
  import opened Matrices
  import opened Conflicts
  import opened Attacks
  import opened Scenarios

  /** `hasMajorDiagonalConflictAt` and `hasMinorDiagonalConflictAt` applied to the integer
      key that `hasAnyQueenConflictsOn` passes them: the loop runs while `i < key.length`;
      a number has no `length`, the comparison with `undefined` is false, the body never
      runs and `count` stays 0. */
  function DiagonalConflictAtAsWritten(m: Matrix, key: int): (conflict: bool)
    ensures !conflict
  {
    var count := 0;
    count > 1
  }

  /** `hasAnyQueenConflictsOn` over the per-key diagonal checks as written: a missing row
      still raises first, and otherwise only the row and the column can report a conflict. */
  function QueenConflictOnAsWritten(m: Matrix, r: int, c: int): (res: Result<bool>)
    ensures res.Err? <==> !(0 <= r < |m|)
    ensures res.Err? ==> res.fault == TypeError
    ensures res.Ok? ==> res.value == (RowConflict(m, r) || ColConflict(m, c))
  {
    if !(0 <= r < |m|) then Err(TypeError)
    else Ok(RowConflict(m, r) || ColConflict(m, c)
            || DiagonalConflictAtAsWritten(m, MajorKey(r, c))
            || DiagonalConflictAtAsWritten(m, MinorKey(r, c)))
  }

  /** `hasAnyMajorDiagonalConflicts` and `hasAnyMinorDiagonalConflicts` as written: the
      start points are collected, and then the loop runs while `j < array.length`, where
      `array` is declared nowhere in this file. This assumes no other script of the page
      defines a global `array`. */
  function AnyDiagonalConflictAsWritten(m: Matrix): (res: Result<bool>)
    ensures res.Err? && res.fault == ReferenceError
  {
    Err(ReferenceError)
  }

  /** `hasAnyQueensConflicts` as written: `||` stops at a rook conflict, and otherwise
      reaches the major-diagonal check, which raises. */
  function AnyQueensConflictAsWritten(m: Matrix): (res: Result<bool>)
    ensures res.Ok? <==> AnyRooksConflict(m)
    ensures res.Ok? ==> res.value
    ensures res.Err? ==> res.fault == ReferenceError
  {
    if AnyRooksConflict(m) then Ok(true) else AnyDiagonalConflictAsWritten(m)
  }

  /** Three queens on one diagonal: the key-based check finds the conflict at `(0, 0)`, the
      check as written answers no. */
  lemma QueenCheckMissesDiagonal()
    ensures QueenConflictOnAsWritten(DIAGONAL, 0, 0) == Ok(false)
    ensures QueenConflictOn(DIAGONAL, 0, 0)
  {
    var m := DIAGONAL;
    assert m[0] == [1, 0, 0] && m[1] == [0, 1, 0] && m[2] == [0, 0, 1];
    assert Ones(m[0]) == 1 by {
      assert m[0][..2][..1] == [1];
      assert m[0][..2] == [1, 0];
    }
    assert ColumnLine(m, 0) == [1, 0, 0];
    assert Ones([1, 0, 0]) == 1 by {
      assert [1, 0, 0][..2][..1] == [1];
      assert [1, 0, 0][..2] == [1, 0];
    }
    DiagonalScenario();
    MajorConflictIff(m, 0);
    assert TwoPieces(m, 0, 0, 1, 1);
  }

  /** On every board without a rook conflict the whole-board queens check as written raises,
      where the key-based check returns a verdict; on the three-diagonal board that verdict
      is a conflict. */
  lemma QueensCheckRaises(m: Matrix)
    requires !AnyRooksConflict(m)
    ensures AnyQueensConflictAsWritten(m) == Err(ReferenceError)
    ensures m == DIAGONAL ==> AnyQueensConflict(m)
  {
    if m == DIAGONAL {
      DiagonalScenario();
    }
  }
}
