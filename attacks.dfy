/** An independent reading of every conflict query: two different pieces share the line.
    Each `count > 1` verdict of module Conflicts is proved equal to it. */
module Attacks {
  import opened Matrices
  import opened Conflicts

  /** Two different cells both hold a piece. */
  ghost predicate TwoPieces(m: Matrix, r1: int, c1: int, r2: int, c2: int) {
    IsPiece(m, r1, c1) && IsPiece(m, r2, c2) && (r1 != r2 || c1 != c2)
  }

  /** Rooks attack along a row or a column. */
  predicate RooksAttack(r1: int, c1: int, r2: int, c2: int) {
    r1 == r2 || c1 == c2
  }

  /** Queens attack in addition along both diagonals. */
  predicate QueensAttack(r1: int, c1: int, r2: int, c2: int) {
    RooksAttack(r1, c1, r2, c2)
    || MajorKey(r1, c1) == MajorKey(r2, c2) || MinorKey(r1, c1) == MinorKey(r2, c2)
  }

  /** Cells `(r1, c1)` and `(r2, c2)` both lie on the row, the column or one of the two
      diagonals through `(r, c)`. */
  predicate ShareLineThrough(r1: int, c1: int, r2: int, c2: int, r: int, c: int) {
    (r1 == r && r2 == r)
    || (c1 == c && c2 == c)
    || (MajorKey(r1, c1) == MajorKey(r, c) && MajorKey(r2, c2) == MajorKey(r, c))
    || (MinorKey(r1, c1) == MinorKey(r, c) && MinorKey(r2, c2) == MinorKey(r, c))
  }

  lemma RowConflictIff(m: Matrix, r: int)
    requires 0 <= r < |m|
    ensures RowConflict(m, r) <==> exists c1, c2 :: TwoPieces(m, r, c1, r, c2)
  {
    OnesAboveOne(m[r]);
    if RowConflict(m, r) {
      var i, j :| 0 <= i < j < |m[r]| && m[r][i] == 1 && m[r][j] == 1;
      assert TwoPieces(m, r, i, r, j);
    }
    if exists c1, c2 :: TwoPieces(m, r, c1, r, c2) {
      var c1, c2 :| TwoPieces(m, r, c1, r, c2);
      if c1 < c2 {
        assert m[r][c1] == 1 && m[r][c2] == 1;
      } else {
        assert m[r][c2] == 1 && m[r][c1] == 1;
      }
    }
  }

  lemma ColConflictIff(m: Matrix, c: int)
    ensures ColConflict(m, c) <==> exists r1, r2 :: TwoPieces(m, r1, c, r2, c)
  {
    var s := ColumnLine(m, c);
    OnesAboveOne(s);
    if ColConflict(m, c) {
      var i, j :| 0 <= i < j < |s| && s[i] == 1 && s[j] == 1;
      assert TwoPieces(m, i, c, j, c);
    }
    if exists r1, r2 :: TwoPieces(m, r1, c, r2, c) {
      var r1, r2 :| TwoPieces(m, r1, c, r2, c);
      if r1 < r2 {
        assert s[r1] == 1 && s[r2] == 1;
      } else {
        assert s[r2] == 1 && s[r1] == 1;
      }
    }
  }

  /** Major diagonal `d` holds a conflict exactly when two different in-bounds pieces
      have key `d`: the walk from `MajorFirstRow` to `MajorEndRow` misses none of them. */
  lemma MajorConflictIff(m: Matrix, d: int)
    requires IsSquare(m)
    ensures MajorConflict(m, d) <==> exists r1, c1, r2, c2 ::
      TwoPieces(m, r1, c1, r2, c2) && MajorKey(r1, c1) == d && MajorKey(r2, c2) == d
  {
    var s := MajorLine(m, d);
    var lo := MajorFirstRow(|m|, d);
    OnesAboveOne(s);
    if MajorConflict(m, d) {
      var i, j :| 0 <= i < j < |s| && s[i] == 1 && s[j] == 1;
      assert s[i] == At(m, lo + i, lo + i + d) && s[j] == At(m, lo + j, lo + j + d);
      assert TwoPieces(m, lo + i, lo + i + d, lo + j, lo + j + d);
    }
    if exists r1, c1, r2, c2 ::
         TwoPieces(m, r1, c1, r2, c2) && MajorKey(r1, c1) == d && MajorKey(r2, c2) == d
    {
      var r1, c1, r2, c2 :|
        TwoPieces(m, r1, c1, r2, c2) && MajorKey(r1, c1) == d && MajorKey(r2, c2) == d;
      MajorWalkCoversKey(|m|, d, r1, c1);
      MajorWalkCoversKey(|m|, d, r2, c2);
      assert s[r1 - lo] == At(m, r1, c1) && s[r2 - lo] == At(m, r2, c2);
      if r1 < r2 {
        assert s[r1 - lo] == 1 && s[r2 - lo] == 1;
      } else {
        assert s[r2 - lo] == 1 && s[r1 - lo] == 1;
      }
    }
  }

  /** Minor diagonal `k` holds a conflict exactly when two different in-bounds pieces
      have key `k`. */
  lemma MinorConflictIff(m: Matrix, k: int)
    requires IsSquare(m)
    ensures MinorConflict(m, k) <==> exists r1, c1, r2, c2 ::
      TwoPieces(m, r1, c1, r2, c2) && MinorKey(r1, c1) == k && MinorKey(r2, c2) == k
  {
    var s := MinorLine(m, k);
    var lo := MinorFirstRow(|m|, k);
    OnesAboveOne(s);
    if MinorConflict(m, k) {
      var i, j :| 0 <= i < j < |s| && s[i] == 1 && s[j] == 1;
      assert s[i] == At(m, lo + i, k - (lo + i)) && s[j] == At(m, lo + j, k - (lo + j));
      assert TwoPieces(m, lo + i, k - (lo + i), lo + j, k - (lo + j));
    }
    if exists r1, c1, r2, c2 ::
         TwoPieces(m, r1, c1, r2, c2) && MinorKey(r1, c1) == k && MinorKey(r2, c2) == k
    {
      var r1, c1, r2, c2 :|
        TwoPieces(m, r1, c1, r2, c2) && MinorKey(r1, c1) == k && MinorKey(r2, c2) == k;
      MinorWalkCoversKey(|m|, k, r1, c1);
      MinorWalkCoversKey(|m|, k, r2, c2);
      assert s[r1 - lo] == At(m, r1, c1) && s[r2 - lo] == At(m, r2, c2);
      if r1 < r2 {
        assert s[r1 - lo] == 1 && s[r2 - lo] == 1;
      } else {
        assert s[r2 - lo] == 1 && s[r1 - lo] == 1;
      }
    }
  }

  lemma AnyRowConflictIff(m: Matrix)
    ensures AnyRowConflict(m) <==> exists r1, c1, r2, c2 :: TwoPieces(m, r1, c1, r2, c2) && r1 == r2
  {
    if AnyRowConflict(m) {
      var r :| 0 <= r < |m| && RowConflict(m, r);
      RowConflictIff(m, r);
      var c1, c2 :| TwoPieces(m, r, c1, r, c2);
    }
    if exists r1, c1, r2, c2 :: TwoPieces(m, r1, c1, r2, c2) && r1 == r2 {
      var r1, c1, r2, c2 :| TwoPieces(m, r1, c1, r2, c2) && r1 == r2;
      RowConflictIff(m, r1);
    }
  }

  lemma AnyColConflictIff(m: Matrix)
    requires IsSquare(m)
    ensures AnyColConflict(m) <==> exists r1, c1, r2, c2 :: TwoPieces(m, r1, c1, r2, c2) && c1 == c2
  {
    if AnyColConflict(m) {
      var c :| 0 <= c < |m| && ColConflict(m, c);
      ColConflictIff(m, c);
      var r1, r2 :| TwoPieces(m, r1, c, r2, c);
    }
    if exists r1, c1, r2, c2 :: TwoPieces(m, r1, c1, r2, c2) && c1 == c2 {
      var r1, c1, r2, c2 :| TwoPieces(m, r1, c1, r2, c2) && c1 == c2;
      ColConflictIff(m, c1);
    }
  }

  /** Checking the keys `1 - n .. n - 1` finds every pair of pieces on a common major
      diagonal. */
  lemma AnyMajorConflictIff(m: Matrix)
    requires IsSquare(m)
    ensures AnyMajorConflict(m) <==> exists r1, c1, r2, c2 ::
      TwoPieces(m, r1, c1, r2, c2) && MajorKey(r1, c1) == MajorKey(r2, c2)
  {
    if AnyMajorConflict(m) {
      var d :| 1 - |m| <= d < |m| && MajorConflict(m, d);
      MajorConflictIff(m, d);
      var r1, c1, r2, c2 :|
        TwoPieces(m, r1, c1, r2, c2) && MajorKey(r1, c1) == d && MajorKey(r2, c2) == d;
    }
    if exists r1, c1, r2, c2 :: TwoPieces(m, r1, c1, r2, c2) && MajorKey(r1, c1) == MajorKey(r2, c2) {
      var r1, c1, r2, c2 :| TwoPieces(m, r1, c1, r2, c2) && MajorKey(r1, c1) == MajorKey(r2, c2);
      CellKeyRanges(|m|, r1, c1);
      MajorConflictIff(m, MajorKey(r1, c1));
    }
  }

  /** Checking the keys `0 .. 2n - 2` finds every pair of pieces on a common minor
      diagonal. */
  lemma AnyMinorConflictIff(m: Matrix)
    requires IsSquare(m)
    ensures AnyMinorConflict(m) <==> exists r1, c1, r2, c2 ::
      TwoPieces(m, r1, c1, r2, c2) && MinorKey(r1, c1) == MinorKey(r2, c2)
  {
    if AnyMinorConflict(m) {
      var k :| 0 <= k < 2 * |m| - 1 && MinorConflict(m, k);
      MinorConflictIff(m, k);
      var r1, c1, r2, c2 :|
        TwoPieces(m, r1, c1, r2, c2) && MinorKey(r1, c1) == k && MinorKey(r2, c2) == k;
    }
    if exists r1, c1, r2, c2 :: TwoPieces(m, r1, c1, r2, c2) && MinorKey(r1, c1) == MinorKey(r2, c2) {
      var r1, c1, r2, c2 :| TwoPieces(m, r1, c1, r2, c2) && MinorKey(r1, c1) == MinorKey(r2, c2);
      CellKeyRanges(|m|, r1, c1);
      MinorConflictIff(m, MinorKey(r1, c1));
    }
  }

  /** `hasAnyRooksConflicts` holds exactly when two pieces attack each other as rooks. */
  lemma RooksConflictIff(m: Matrix)
    requires IsSquare(m)
    ensures AnyRooksConflict(m) <==> exists r1, c1, r2, c2 ::
      TwoPieces(m, r1, c1, r2, c2) && RooksAttack(r1, c1, r2, c2)
  {
    AnyRowConflictIff(m);
    AnyColConflictIff(m);
  }

  /** `hasAnyQueensConflicts` holds exactly when two pieces attack each other as queens. */
  lemma QueensConflictIff(m: Matrix)
    requires IsSquare(m)
    ensures AnyQueensConflict(m) <==> exists r1, c1, r2, c2 ::
      TwoPieces(m, r1, c1, r2, c2) && QueensAttack(r1, c1, r2, c2)
  {
    AnyRowConflictIff(m);
    AnyColConflictIff(m);
    AnyMajorConflictIff(m);
    AnyMinorConflictIff(m);
  }

  /** `hasAnyQueenConflictsOn(r, c)` holds exactly when two different pieces share the row,
      the column or a diagonal through `(r, c)`; a piece at `(r, c)` may be one of them. */
  lemma QueenConflictOnIff(m: Matrix, r: int, c: int)
    requires IsSquare(m) && 0 <= r < |m|
    ensures QueenConflictOn(m, r, c) <==> exists r1, c1, r2, c2 ::
      TwoPieces(m, r1, c1, r2, c2) && ShareLineThrough(r1, c1, r2, c2, r, c)
  {
    RowConflictIff(m, r);
    ColConflictIff(m, c);
    MajorConflictIff(m, MajorKey(r, c));
    MinorConflictIff(m, MinorKey(r, c));
    if exists r1, c1, r2, c2 :: TwoPieces(m, r1, c1, r2, c2) && r1 == r && r2 == r {
      var r1, c1, r2, c2 :| TwoPieces(m, r1, c1, r2, c2) && r1 == r && r2 == r;
      assert TwoPieces(m, r, c1, r, c2);
    }
    if exists r1, c1, r2, c2 :: TwoPieces(m, r1, c1, r2, c2) && c1 == c && c2 == c {
      var r1, c1, r2, c2 :| TwoPieces(m, r1, c1, r2, c2) && c1 == c && c2 == c;
      assert TwoPieces(m, r1, c, r2, c);
    }
  }

  /** Some cell of the board has a queen conflict exactly when the board has one. */
  lemma QueensConflictSomewhere(m: Matrix)
    requires IsSquare(m)
    ensures AnyQueensConflict(m) <==> exists r, c :: InBounds(|m|, r, c) && QueenConflictOn(m, r, c)
  {
    QueensConflictIff(m);
    if AnyQueensConflict(m) {
      var r1, c1, r2, c2 :| TwoPieces(m, r1, c1, r2, c2) && QueensAttack(r1, c1, r2, c2);
      QueenConflictOnIff(m, r1, c1);
      assert InBounds(|m|, r1, c1) && QueenConflictOn(m, r1, c1);
    }
    if exists r, c :: InBounds(|m|, r, c) && QueenConflictOn(m, r, c) {
      var r, c :| InBounds(|m|, r, c) && QueenConflictOn(m, r, c);
      QueenConflictOnIff(m, r, c);
      var r1, c1, r2, c2 :| TwoPieces(m, r1, c1, r2, c2) && ShareLineThrough(r1, c1, r2, c2, r, c);
      assert QueensAttack(r1, c1, r2, c2);
    }
  }

  /** A fresh `{n}` board has no conflict of any kind. */
  lemma EmptyBoardHasNoConflicts(n: nat)
    ensures !AnyQueensConflict(EmptyMatrix(n)) && !AnyRooksConflict(EmptyMatrix(n))
  {
    var m := EmptyMatrix(n);
    QueensConflictIff(m);
  }
}
