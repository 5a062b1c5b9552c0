# N-Queens conflict board

A model of the board object of an N-Queens exercise, `src/Board.js`: an N×N matrix of
0/1 cells, built empty from a size `n` or wrapped around a caller's matrix, changed one
cell at a time by `togglePiece`, and queried for conflicts along rows, columns, major
diagonals (constant `col - row`) and minor diagonals (constant `col + row`). The queries
combine into a rooks verdict (rows or columns) and a queens verdict (rooks or either
diagonal).

Layout:

- `outcomes.dfy` (`Outcomes`): the JavaScript exceptions a query can raise, and `Result`.
- `matrices.dfy` (`Matrices`): the matrix, its invariant (square, 0/1), the empty board,
  bounds, the two diagonal keys, and the toggle as a function on matrices.
- `conflicts.dfy` (`Conflicts`): the cells each query walks, the count of pieces on them,
  and each verdict as `count > 1`; the "any" verdicts range over every row, every column,
  every major key `1 - n .. n - 1` and every minor key `0 .. 2n - 2`.
- `attacks.dfy` (`Attacks`): an independent reading, "two different pieces share the
  line", proved equal to every verdict; the queens verdict is proved to hold exactly when
  two pieces attack each other as queens.
- `board.dfy` (`Boards`): the class `Board` with its size `n`, its rows `cells`, the
  in-place toggle, every counting or flag query as a method whose loop is proved to
  compute the verdict of `Conflicts`, and the rooks, queens and point queries as methods
  that combine them.
- `scenarios.dfy` (`Scenarios`): four small boards worked through in full.
- `as_written.dfy` (`AsWritten`): the diagonal queries as the file has them (see Findings).

The diagonal queries are modelled by their key-based meaning: the key helpers
(`src/Board.js:32-38`) give a diagonal's identity, the comments at `src/Board.js:137` and
`src/Board.js:184` give the direction of travel, and every query uses `count > 1`. A major
diagonal `d` is walked over rows `max(0, -d) .. min(n-1, n-1-d)` with column `r + d`, a
minor diagonal `k` over rows `max(0, k-(n-1)) .. min(n-1, k)` with column `k - r`. The
code as written does not do this; the Findings section states the divergence and
`AsWritten` models that code.

Where the code departs from what one might expect of such a board (an IndexOutOfRange
error for a bad index, a check of a caller's matrix), the model follows the code:

- A column index off the board is not an error: every row reads `undefined` there, which
  is never `=== 1`, so `hasColConflictAt` answers false.
- A row index off the board makes `hasRowConflictAt` read `.length` of `undefined`, which
  raises a TypeError; `HasRowConflictAt` and `HasAnyQueenConflictsOn` return
  `Err(TypeError)` there.
- A caller's matrix is not checked; an empty matrix gives a board of size 0.
- Toggling writes `+ !v` (`Flip`), which is `1 - v` on 0/1 cells.

## Model

| member | source | states |
|---|---|---|
| Matrices.EmptyMatrix | src/Board.js:237-243 | `n` rows, each of `n` zeros; the result is square and 0/1 |
| Boards.Board.FromSize | src/Board.js:14-15 | a `{n}` board has size `n`, satisfies the invariant and holds the empty matrix |
| Boards.Board.FromMatrix | src/Board.js:16-17 | a board built from a matrix has as its size the matrix's row count and holds that matrix |
| Attacks.EmptyBoardHasNoConflicts | src/Board.js:237-243 | a fresh `{n}` board has neither a rooks nor a queens conflict |
| Boards.Board.Rows | src/Board.js:21-25 | the `n` row attributes in order, which are exactly the board's cells |
| Matrices.Flip | src/Board.js:28 | `+ !v` is always 0 or 1, and is `1 - v` when `v` is 0 or 1 |
| Matrices.Toggled | src/Board.js:27-28 | the toggled cell becomes `+ !old`, every other cell and every row length stays, the invariant is kept and the cell becomes `1 - old` |
| Boards.Board.TogglePiece | src/Board.js:27-30 | the new cells are the old ones toggled at `(r, c)`; size and invariant are kept |
| Matrices.ToggleTwice | src/Board.js:27-30 | toggling an in-bounds cell twice restores the board |
| Boards.Board.IsInBounds | src/Board.js:57-62 | true exactly when `(r, c)` names a cell of the board's rows |
| Matrices.MajorKey | src/Board.js:32-34 | the major key `d` of `(r, c)` is the column offset on its diagonal: `c == r + d` |
| Matrices.MinorKey | src/Board.js:36-38 | the minor key `k` of `(r, c)` fixes the column on its diagonal: `c == k - r` |
| Matrices.CellKeyRanges | src/Board.js:32-38 | every in-bounds cell's major key lies in `[-(n-1), n-1]` and its minor key in `[0, 2n-2]` |
| Conflicts.MajorWalkCoversKey | src/Board.js:137-157 | the rows `max(0,-d) .. min(n, n-d) - 1` with column `r + d` are exactly the in-bounds cells of major key `d` |
| Conflicts.MinorWalkCoversKey | src/Board.js:184-205 | the rows `max(0, k-(n-1)) .. min(n, k+1) - 1` with column `k - r` are exactly the in-bounds cells of minor key `k` |
| Conflicts.OnesAboveOne | src/Board.js:84-91 | the count of 1s exceeds one exactly when two different positions hold 1 |
| Boards.Board.HasRowConflictAt | src/Board.js:81-92 | for a row of the board, whether its count of 1s exceeds one; otherwise a TypeError |
| Attacks.RowConflictIff | src/Board.js:81-92 | a row conflict holds exactly when two different pieces stand in that row |
| Boards.Board.HasAnyRowConflicts | src/Board.js:95-104 | true exactly when some row index in `[0, n)` has a row conflict |
| Attacks.AnyRowConflictIff | src/Board.js:95-104 | some row conflict exactly when two different pieces share a row |
| Boards.Board.HasColConflictAt | src/Board.js:112-121 | whether more than one row holds 1 at column `c`; false for a column off the board |
| Attacks.ColConflictIff | src/Board.js:112-121 | a column conflict holds exactly when two different pieces stand in that column |
| Boards.Board.HasAnyColConflicts | src/Board.js:124-133 | true exactly when some column index in `[0, n)` has a column conflict |
| Attacks.AnyColConflictIff | src/Board.js:124-133 | some column conflict exactly when two different pieces share a column |
| Boards.Board.HasMajorDiagonalConflictAt | src/Board.js:141-157 | walking key `d` from the top-left edge, whether more than one cell holds 1 |
| Attacks.MajorConflictIff | src/Board.js:141-157 | a major conflict at `d` holds exactly when two different in-bounds pieces have `col - row == d` |
| Boards.Board.HasAnyMajorDiagonalConflicts | src/Board.js:160-181 | true exactly when some key in `[-(n-1), n-1]` has a major conflict |
| Attacks.AnyMajorConflictIff | src/Board.js:160-181 | some major conflict exactly when two different pieces share `col - row` |
| Boards.Board.HasMinorDiagonalConflictAt | src/Board.js:188-205 | walking key `k` from the top-right edge, whether more than one cell holds 1 |
| Attacks.MinorConflictIff | src/Board.js:188-205 | a minor conflict at `k` holds exactly when two different in-bounds pieces have `col + row == k` |
| Boards.Board.HasAnyMinorDiagonalConflicts | src/Board.js:208-229 | true exactly when some key in `[0, 2n-2]` has a minor conflict |
| Attacks.AnyMinorConflictIff | src/Board.js:208-229 | some minor conflict exactly when two different pieces share `col + row` |
| Boards.Board.HasAnyRooksConflicts | src/Board.js:40-42 | the row verdict or, failing that, the column verdict |
| Attacks.RooksConflictIff | src/Board.js:40-42 | a rooks conflict exactly when two different pieces share a row or a column |
| Boards.Board.HasAnyQueensConflicts | src/Board.js:53-55 | the rooks verdict, or the major verdict, or the minor verdict |
| Attacks.QueensConflictIff | src/Board.js:53-55 | a queens conflict exactly when two different pieces share a row, a column or a diagonal |
| Boards.Board.HasAnyQueenConflictsOn | src/Board.js:44-51 | for a row of the board, the row check at `r`, column check at `c`, major check at `c - r` or minor check at `c + r`; otherwise a TypeError |
| Attacks.QueenConflictOnIff | src/Board.js:44-51 | the point check holds exactly when two different pieces lie on one line through `(r, c)`; a piece at `(r, c)` counts as one of them |
| Attacks.QueensConflictSomewhere | src/Board.js:44-55 | the board has a queens conflict exactly when the point check holds at some in-bounds cell |
| Scenarios.DiagonalScenario | src/Board.js:95-229 | on `[[1,0,0],[0,1,0],[0,0,1]]`: no row or column conflict, a major conflict, no minor conflict |
| Scenarios.TopRowScenario | src/Board.js:44-133 | on `[[1,1],[0,0]]`: row 0 conflicts, row 1 and every column do not; the point check holds at `(0, 0)` and not at `(1, 1)` |
| Scenarios.AntiDiagonalScenario | src/Board.js:160-229 | on `[[0,1],[1,0]]`: a minor conflict and no major conflict |
| Scenarios.ToggleScenario | src/Board.js:27-30 | on a `{n: 4}` board, pieces at `(0,0)` and `(3,3)` give a major conflict; removing `(0,0)` removes it |
| AsWritten.DiagonalConflictAtAsWritten | src/Board.js:141-157 | always false: on an integer key `i < key.length` is false, so the loop never runs and the count stays 0 (the minor check at 188-205 is the same) |
| AsWritten.QueenConflictOnAsWritten | src/Board.js:44-51 | a missing row raises a TypeError; otherwise the answer is the row check or the column check, the diagonal checks as written never reporting |
| AsWritten.AnyDiagonalConflictAsWritten | src/Board.js:160-181 | always raises a ReferenceError: the loop reads `array`, declared nowhere in this file (the minor check at 208-229 is the same) |
| AsWritten.AnyQueensConflictAsWritten | src/Board.js:53-55 | `Ok(true)` exactly when there is a rooks conflict; otherwise the major check as written raises a ReferenceError |
| AsWritten.QueenCheckMissesDiagonal | src/Board.js:44-51 | on the three-diagonal board the point check as written answers no at `(0, 0)`, the key-based one yes |
| AsWritten.QueensCheckRaises | src/Board.js:160-181 | without a rooks conflict the queens check as written raises a ReferenceError; on the three-diagonal board the key-based one finds a conflict |

## Left out

- The Backbone model plumbing: attribute `get`/`set` by row index and the `change` event
  raised after a toggle; the board holds its size and rows as fields instead.
- The usage banner printed when the constructor gets no argument, and the debug logging
  of the start points in both "any diagonal" checks: console output only.
- Boards.Board.FromSize: a negative or non-integer `n` is outside the model (the size is a `nat`).
- Boards.Board.FromMatrix: requires a square 0/1 matrix; the code accepts any array, and
  truthy cell values other than 1 are not modelled, since counting uses `=== 1` while
  toggling uses `!`.
- Boards.Board.FromMatrix: the code keeps the caller's row arrays, so a toggle also
  changes the caller's matrix; the model holds the rows as a value and does not capture
  this aliasing.
- Boards.Board.TogglePiece: requires an in-bounds cell; with a missing row the code raises
  a TypeError, and with an off-board column it writes a 1 outside the square (growing the
  row array or adding a property), which the square model cannot represent.
- The assignments to the global `n` in both per-key diagonal checks: they change a
  global variable that no other part of the board reads.
- The start points built by both "any diagonal" checks: they are built on every call but
  never used, and the minor check's call of the major check at line 224 is never reached,
  because the loop over `array` raises first.
- AsWritten.AnyDiagonalConflictAsWritten: the ReferenceError assumes no other script
  loaded with the board defines a global `array`; only this file is part of the model.
- The commented-out scratch code and sample matrices at the end of the file.

## Findings

| source | as written | input that shows it | evidently intended | confidence | as-written member | corrected member |
|---|---|---|---|---|---|---|
| src/Board.js:141-157 | the per-key diagonal checks loop while `i < n.length` on an integer key, so the loop never runs, the count stays 0 and they always answer false; `hasAnyQueenConflictsOn` sees only its row and column | `[[1,0,0],[0,1,0],[0,0,1]]`, `hasAnyQueenConflictsOn(0, 0)` | count the in-bounds pieces with `col - row` (resp. `col + row`) equal to the key and answer `count > 1` | not executed | AsWritten.QueenCheckMissesDiagonal | Boards.Board.HasAnyQueenConflictsOn |
| src/Board.js:175 | `hasAnyMajorDiagonalConflicts` loops over `array`, declared nowhere in this file, and raises a ReferenceError (so does the minor one at line 223), so `hasAnyQueensConflicts` raises on every board without a rooks conflict | `[[1,0,0],[0,1,0],[0,0,1]]`, `hasAnyQueensConflicts()` | check every key in `[-(n-1), n-1]` (resp. `[0, 2n-2]`) | not executed | AsWritten.QueensCheckRaises | Boards.Board.HasAnyMajorDiagonalConflicts |
