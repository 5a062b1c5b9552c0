/** The conflict queries as values: the cells a query walks (a row, a column, a diagonal
    given by its key), the count of pieces on them, and the `count > 1` verdicts. */
module Conflicts {
  import opened Matrices

  /** Number of cells equal to 1, counted from the left as the query loops do. */
  function Ones(s: seq<int>): (k: nat)
    ensures k <= |s|
  {
    if s == [] then 0 else Ones(s[..|s| - 1]) + (if s[|s| - 1] == 1 then 1 else 0)
  }

  /** One step of a counting loop. */
  lemma OnesStep(s: seq<int>, i: int)
    requires 0 <= i < |s|
    ensures Ones(s[..i + 1]) == Ones(s[..i]) + (if s[i] == 1 then 1 else 0)
  {
    assert s[..i + 1][..i] == s[..i];
  }

  /** Some cell holds 1 exactly when the count is positive. */
  lemma {:induction false} OnesPositive(s: seq<int>)
    ensures Ones(s) > 0 <==> exists i :: 0 <= i < |s| && s[i] == 1
  {
    if s != [] {
      var t := s[..|s| - 1];
      OnesPositive(t);
      if s[|s| - 1] != 1 {
        if exists i :: 0 <= i < |s| && s[i] == 1 {
          var i :| 0 <= i < |s| && s[i] == 1;
          assert t[i] == 1;
        }
      }
    }
  }

  /** The `count > 1` threshold holds exactly when two different cells hold 1. */
  lemma {:induction false} OnesAboveOne(s: seq<int>)
    ensures Ones(s) > 1 <==> exists i, j :: 0 <= i < j < |s| && s[i] == 1 && s[j] == 1
  {
    if s != [] {
      var last := |s| - 1;
      var t := s[..last];
      OnesAboveOne(t);
      OnesPositive(t);
      if exists i, j :: 0 <= i < j < |s| && s[i] == 1 && s[j] == 1 {
        var i, j :| 0 <= i < j < |s| && s[i] == 1 && s[j] == 1;
        if j == last {
          assert t[i] == 1;
        } else {
          assert t[i] == 1 && t[j] == 1;
        }
      }
      if Ones(s) > 1 {
        if s[last] == 1 {
          var i :| 0 <= i < |t| && t[i] == 1;
          assert s[i] == 1 && s[last] == 1;
        } else {
          var i, j :| 0 <= i < j < |t| && t[i] == 1 && t[j] == 1;
          assert s[i] == 1 && s[j] == 1;
        }
      }
    }
  }

  /** Column `c` read top to bottom, as `columns[i][c]` for every row `i`. */
  function ColumnLine(m: Matrix, c: int): (s: seq<int>)
    ensures |s| == |m|
  {
    seq(|m|, i => At(m, i, c))
  }

  /** First row of major diagonal `d` on an `n`-by-`n` board: `max(0, -d)`. */
  function MajorFirstRow(n: int, d: int): (first: int)
    ensures 0 <= first && 0 <= first + d && (first == 0 || first + d == 0)
  {
    if d < 0 then -d else 0
  }

  /** One past its last row: `min(n, n - d)`. */
  function MajorEndRow(n: int, d: int): (end: int)
    ensures end <= n && end + d <= n && (end == n || end + d == n)
  {
    if d > 0 then n - d else n
  }

  /** First row of minor diagonal `k`: `max(0, k - (n - 1))`. */
  function MinorFirstRow(n: int, k: int): (first: int)
    ensures 0 <= first && k - first <= n - 1 && (first == 0 || k - first == n - 1)
  {
    if k > n - 1 then k - (n - 1) else 0
  }

  /** One past its last row: `min(n, k + 1)`. */
  function MinorEndRow(n: int, k: int): (end: int)
    ensures end <= n && end <= k + 1 && (end == n || end == k + 1)
  {
    if k + 1 < n then k + 1 else n
  }

  /** The rows a major-diagonal walk visits are exactly the rows of the in-bounds cells
      whose key is `d`, and the walk's column is always `r + d`. */
  lemma MajorWalkCoversKey(n: int, d: int, r: int, c: int)
    ensures MajorFirstRow(n, d) <= r < MajorEndRow(n, d) && c == r + d
        <==> InBounds(n, r, c) && MajorKey(r, c) == d
  {
  }

  /** The same for a minor-diagonal walk, whose column is `k - r`. */
  lemma MinorWalkCoversKey(n: int, k: int, r: int, c: int)
    ensures MinorFirstRow(n, k) <= r < MinorEndRow(n, k) && c == k - r
        <==> InBounds(n, r, c) && MinorKey(r, c) == k
  {
  }

  /** Major diagonal `d` read from top-left to bottom-right. */
  function MajorLine(m: Matrix, d: int): (s: seq<int>)
    ensures |s| == if MajorFirstRow(|m|, d) < MajorEndRow(|m|, d)
                   then MajorEndRow(|m|, d) - MajorFirstRow(|m|, d) else 0
  {
    var lo, hi := MajorFirstRow(|m|, d), MajorEndRow(|m|, d);
    seq(if lo < hi then hi - lo else 0, i => At(m, lo + i, lo + i + d))
  }

  /** Minor diagonal `k` read from top-right to bottom-left. */
  function MinorLine(m: Matrix, k: int): (s: seq<int>)
    ensures |s| == if MinorFirstRow(|m|, k) < MinorEndRow(|m|, k)
                   then MinorEndRow(|m|, k) - MinorFirstRow(|m|, k) else 0
  {
    var lo, hi := MinorFirstRow(|m|, k), MinorEndRow(|m|, k);
    seq(if lo < hi then hi - lo else 0, i => At(m, lo + i, k - (lo + i)))
  }

  /** `hasRowConflictAt(r)`: more than one piece in row `r`. */
  predicate RowConflict(m: Matrix, r: int)
    requires 0 <= r < |m|
  {
    Ones(m[r]) > 1
  }

  /** `hasColConflictAt(c)`: more than one piece in column `c`. */
  predicate ColConflict(m: Matrix, c: int) {
    Ones(ColumnLine(m, c)) > 1
  }

  /** `hasMajorDiagonalConflictAt(d)`: more than one piece on major diagonal `d`. */
  predicate MajorConflict(m: Matrix, d: int) {
    Ones(MajorLine(m, d)) > 1
  }

  /** `hasMinorDiagonalConflictAt(k)`: more than one piece on minor diagonal `k`. */
  predicate MinorConflict(m: Matrix, k: int) {
    Ones(MinorLine(m, k)) > 1
  }

  predicate AnyRowConflict(m: Matrix) {
    exists r :: 0 <= r < |m| && RowConflict(m, r)
  }

  predicate AnyColConflict(m: Matrix) {
    exists c :: 0 <= c < |m| && ColConflict(m, c)
  }

  /** Over every major key `1 - n .. n - 1`. */
  predicate AnyMajorConflict(m: Matrix) {
    exists d :: 1 - |m| <= d < |m| && MajorConflict(m, d)
  }

  /** Over every minor key `0 .. 2n - 2`. */
  predicate AnyMinorConflict(m: Matrix) {
    exists k :: 0 <= k < 2 * |m| - 1 && MinorConflict(m, k)
  }

  /** `hasAnyRooksConflicts`. */
  predicate AnyRooksConflict(m: Matrix) {
    AnyRowConflict(m) || AnyColConflict(m)
  }

  /** `hasAnyQueensConflicts`. */
  predicate AnyQueensConflict(m: Matrix) {
    AnyRooksConflict(m) || AnyMajorConflict(m) || AnyMinorConflict(m)
  }

  /** `hasAnyQueenConflictsOn(r, c)`: the four lines through `(r, c)`, the piece at
      `(r, c)` itself included in their counts. */
  predicate QueenConflictOn(m: Matrix, r: int, c: int)
    requires 0 <= r < |m|
  {
    RowConflict(m, r) || ColConflict(m, c)
    || MajorConflict(m, MajorKey(r, c)) || MinorConflict(m, MinorKey(r, c))
  }
}
