/** Small boards whose verdicts are worked out in full. */
module Scenarios {
  import opened Matrices
  import opened Conflicts
  import opened Attacks

  /** Three queens on major diagonal 0. */
  const DIAGONAL: Matrix := [[1, 0, 0], [0, 1, 0], [0, 0, 1]]
  /** Two pieces in the top row. */
  const TOP_ROW: Matrix := [[1, 1], [0, 0]]
  /** Two pieces on minor diagonal 1. */
  const ANTI_DIAGONAL: Matrix := [[0, 1], [1, 0]]

  lemma DiagonalScenario()
    ensures WellFormed(DIAGONAL)
    ensures !AnyRowConflict(DIAGONAL) && !AnyColConflict(DIAGONAL)
    ensures AnyMajorConflict(DIAGONAL) && !AnyMinorConflict(DIAGONAL)
  {
    var m := DIAGONAL;
    assert m[0] == [1, 0, 0] && m[1] == [0, 1, 0] && m[2] == [0, 0, 1];
    forall r, c | IsPiece(m, r, c)
      ensures r == c
    {
      assert r == 0 || r == 1 || r == 2;
    }
    AnyRowConflictIff(m);
    AnyColConflictIff(m);
    AnyMinorConflictIff(m);
    MajorConflictIff(m, 0);
    assert TwoPieces(m, 0, 0, 1, 1);
  }

  lemma TopRowScenario()
    ensures WellFormed(TOP_ROW)
    ensures RowConflict(TOP_ROW, 0) && !RowConflict(TOP_ROW, 1) && !AnyColConflict(TOP_ROW)
    ensures QueenConflictOn(TOP_ROW, 0, 0) && !QueenConflictOn(TOP_ROW, 1, 1)
  {
    var m := TOP_ROW;
    assert m[0] == [1, 1] && m[1] == [0, 0];
    assert Ones(m[0]) == 2 && Ones(m[1]) == 0 by {
      assert m[0][..1] == [1] && m[1][..1] == [0];
    }
    forall r, c | IsPiece(m, r, c)
      ensures r == 0
    {
      assert r == 0 || r == 1;
    }
    AnyColConflictIff(m);
    ColConflictIff(m, 1);
    MajorConflictIff(m, 0);
    MinorConflictIff(m, 2);
  }

  lemma AntiDiagonalScenario()
    ensures WellFormed(ANTI_DIAGONAL)
    ensures AnyMinorConflict(ANTI_DIAGONAL) && !AnyMajorConflict(ANTI_DIAGONAL)
  {
    var m := ANTI_DIAGONAL;
    assert m[0] == [0, 1] && m[1] == [1, 0];
    forall r, c | IsPiece(m, r, c)
      ensures r + c == 1
    {
      assert r == 0 || r == 1;
    }
    AnyMajorConflictIff(m);
    MinorConflictIff(m, 1);
    assert TwoPieces(m, 0, 1, 1, 0);
  }

  /** `new Board({n: 4})`, toggle `(0, 0)` and `(3, 3)`: a major-diagonal conflict; toggle
      `(0, 0)` back: none. */
  lemma ToggleScenario()
    ensures AnyMajorConflict(Toggled(Toggled(EmptyMatrix(4), 0, 0), 3, 3))
    ensures !AnyMajorConflict(Toggled(Toggled(Toggled(EmptyMatrix(4), 0, 0), 3, 3), 0, 0))
  {
    var m0 := EmptyMatrix(4);
    var m1 := Toggled(m0, 0, 0);
    var m2 := Toggled(m1, 3, 3);
    var m3 := Toggled(m2, 0, 0);
    assert m2[0][0] == 1 && m2[3][3] == 1;
    MajorConflictIff(m2, 0);
    assert TwoPieces(m2, 0, 0, 3, 3);
    forall r, c | IsPiece(m3, r, c)
      ensures r == 3 && c == 3
    {
    }
    AnyMajorConflictIff(m3);
  }
}
