/** The board's cells as a value: a row-major matrix of numbers, the empty board,
    bounds, the two diagonal keys and the single-cell toggle. */
module Matrices {

  /** `m[r][c]` is the cell in row `r` (0 = top) and column `c` (0 = left). */
  type Matrix = seq<seq<int>>

  /** Every row has as many cells as there are rows. */
  predicate IsSquare(m: Matrix) {
    forall r :: 0 <= r < |m| ==> |m[r]| == |m|
  }

  /** Every cell is 0 (empty) or 1 (a piece). */
  predicate IsBinary(m: Matrix) {
    forall r, c :: 0 <= r < |m| && 0 <= c < |m[r]| ==> m[r][c] == 0 || m[r][c] == 1
  }

  /** The board invariant: square and 0/1. */
  predicate WellFormed(m: Matrix) {
    IsSquare(m) && IsBinary(m)
  }

  /** `makeEmptyMatrix(n)`: `n` rows of `n` zeros. */
  function EmptyMatrix(n: nat): (m: Matrix)
    ensures |m| == n && WellFormed(m)
    ensures forall r, c :: 0 <= r < n && 0 <= c < n ==> m[r][c] == 0
  {
    seq(n, _ => seq(n, _ => 0))
  }

  /** `_isInBounds` on a board of size `n`; `Boards.Board.IsInBounds` applies it to the
      board's own size. */
  predicate InBounds(n: int, r: int, c: int) {
    0 <= r < n && 0 <= c < n
  }

  /** Key of the major (top-left to bottom-right) diagonal through `(r, c)`. */
  function MajorKey(r: int, c: int): (d: int)
    ensures c == r + d
  {
    c - r
  }

  /** Key of the minor (top-right to bottom-left) diagonal through `(r, c)`. */
  function MinorKey(r: int, c: int): (k: int)
    ensures c == k - r
  {
    c + r
  }

  /** What `rows[r][c]` reads inside `rows`: a cell off the end of its row is JavaScript's
      `undefined`, which is never `=== 1`; it is read here as 0. */
  function At(m: Matrix, r: int, c: int): (v: int)
    ensures v == 1 <==> IsPiece(m, r, c)
  {
    if 0 <= r < |m| && 0 <= c < |m[r]| then m[r][c] else 0
  }

  /** A piece stands at `(r, c)`. */
  predicate IsPiece(m: Matrix, r: int, c: int) {
    0 <= r < |m| && 0 <= c < |m[r]| && m[r][c] == 1
  }

  /** `+ !v`: the number of the negated truthiness of `v`. */
  function Flip(v: int): (w: int)
    ensures w == 0 || w == 1
    ensures v == 0 || v == 1 ==> w == 1 - v
  {
    if v == 0 then 1 else 0
  }

  /** The matrix after `togglePiece(r, c)`. */
  function Toggled(m: Matrix, r: int, c: int): (t: Matrix)
    requires 0 <= r < |m| && 0 <= c < |m[r]|
    ensures |t| == |m| && forall i :: 0 <= i < |m| ==> |t[i]| == |m[i]|
    ensures t[r][c] == Flip(m[r][c])
    ensures forall i, j :: 0 <= i < |m| && 0 <= j < |m[i]| && (i != r || j != c) ==> t[i][j] == m[i][j]
    ensures WellFormed(m) ==> WellFormed(t) && t[r][c] == 1 - m[r][c]
  {
    m[r := m[r][c := Flip(m[r][c])]]
  }

  /** Toggling the same in-bounds cell twice gives back the original board. */
  lemma ToggleTwice(m: Matrix, r: int, c: int)
    requires WellFormed(m) && InBounds(|m|, r, c)
    ensures Toggled(Toggled(m, r, c), r, c) == m
  {
    var t := Toggled(Toggled(m, r, c), r, c);
    forall i | 0 <= i < |m|
      ensures t[i] == m[i]
    {
      assert |t[i]| == |m[i]|;
    }
  }

  /** Every cell of an `n`-by-`n` board has one major key in `[-(n-1), n-1]` and one
      minor key in `[0, 2n-2]`. */
  lemma CellKeyRanges(n: int, r: int, c: int)
    requires InBounds(n, r, c)
    ensures 1 - n <= MajorKey(r, c) <= n - 1
    ensures 0 <= MinorKey(r, c) <= 2 * n - 2
  {
  }
}
