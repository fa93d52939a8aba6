# Chess move validation, modelled in Dafny

This project models the move-validation core of a small PHP chess project (namespace
`SolarWinds\Chess`). The core has two parts:

- **`ChessBoard`**: an 8 × 8 grid whose cells hold `EMPTY` or a piece. It has the queries
  `isLegalBoardPosition`, `isCellEmpty`, `getCell`, `getCells` and `getSquareSize`, and one
  placement mutator, `add`.
- **`Piece`**: an abstract piece with a colour, coordinates (`INVALID` = -1 when not placed, or
  after capture) and a captured flag. Its `validMove` runs a fixed pipeline: inactive? → legal
  destination? → `validPattern` hook → `validPath` hook → destination empty, friendly or enemy.
  `move` validates first, then writes the new coordinates, then hands over to the board.
  `capturedBy` takes a piece out of play for good.

Files:

- `wrappers.dfy` (module `Wrappers`): `Result`/`Outcome` values standing in for exceptions. It
  also holds `FirstFailure`, the reference meaning of "an ordered list of checks, where the
  first failing one decides the error".
- `chess.dfy` (module `Chess`): the `ChessBoard` and `Piece` classes and the board invariant. The
  two classes share one module because each refers to the other: a cell holds a piece, and a
  placed piece holds its board.
- `pawn.dfy` (module `Pawn`): a concrete pawn, with rules taken from what the repository's
  tests assert. It also holds methods that replay those tests against the model.

Modelling choices:

- The grid is a `seq<seq<Cell>>` field that `add` and `handleMove` reassign. PHP arrays are
  values, so `getCells` returning a copy comes for free.
- A legal position means that the cell exists (`0 <= x < |cells| && 0 <= y < |cells[x]|`), as
  `isset` checks it. Cells are never null: `Cell` is `Empty | Occupied(piece)`. So on the 8 × 8
  board, being legal is proved equal to the range check.
- `validPattern`/`validPath` stay abstract. Each `Piece` carries `const rules: Rules`, two total
  functions over a `MoveQuery` snapshot (grid, colour, origin, destination). The piece's kind
  fixes them at construction, which plays the part of the subclass override. Every property of
  `ValidMove` and `Move` holds for any rules that are functions of that snapshot (see
  "Left out").
- `ChessBoard.Valid()` is the invariant between the two objects:
  - every occupied cell holds an active piece of this board whose coordinates name that cell;
  - every piece placed on the board refers back to it;
  - a captured piece is at (`INVALID`, `INVALID`) and in no cell;
  - an active piece is held by the cell its coordinates name.

  `Add` and `Move` preserve it. A ghost set `pieces` records every piece ever placed.

- `handleMove` is called by `move` but not defined in the source. Its contract here is an
  ASSUMPTION taken from that call site and from the capture tests (PawnTest.php:102-110):
  1. vacate the old cell;
  2. put the mover at its new coordinates, which it already carries;
  3. have the victim, if any, captured by the mover.

Two behaviours of the code worth stating:

- A never-placed piece is active, because its captured flag is false. Moving it reaches the null
  board reference before anything else and fails at PHP run time, not with an "inactive" error.
  So `Move` requires a placed piece.
- `add` throws `InvalidArgumentException` for an illegal position (ChessBoard.php:22) and for an
  occupied cell (ChessBoard.php:25). The tests expect `InvalidMoveException` in both cases
  (ChessBoardTest.php:72 and ChessBoardTest.php:80-100). The model keeps only the error kinds,
  `OutOfBounds` and `CellOccupied`.

## Model

| member | source | states |
|---|---|---|
| `Wrappers.FirstFailure` | ChessProject-PHP/src/Piece.php:94-117 | reference meaning of an ordered check list: no error iff every check passes; otherwise the error of a failing check with only passing checks before it |
| `Wrappers.FirstFailureAt` | ChessProject-PHP/src/Piece.php:94-117 | if check k fails and all earlier ones pass, the pipeline's error is exactly check k's error |
| `Chess.Place` | ChessProject-PHP/src/ChessBoard.php:30 | writing one cell sets that cell, keeps the grid's shape and leaves every other cell as it was |
| `Chess.Relocate` | ChessProject-PHP/src/Piece.php:84 | the grid after a move (assumed handleMove): destination holds the mover, origin is EMPTY, every other cell unchanged |
| `Chess.ChessBoard.constructor` | ChessProject-PHP/src/ChessBoard.php:13-17 | a new board has 8 columns of 8 cells, every one EMPTY, no pieces, and satisfies the invariant |
| `Chess.ChessBoard.IsLegalBoardPosition` | ChessProject-PHP/src/ChessBoard.php:38-46 | true iff the cell exists, which on the 8 × 8 board is iff 0 ≤ x < 8 and 0 ≤ y < 8; with the throw flag an illegal position fails with OutOfBounds and nothing else fails; changes nothing |
| `Chess.ChessBoard.IsCellEmpty` | ChessProject-PHP/src/ChessBoard.php:48-51 | fails with OutOfBounds exactly on an illegal position; otherwise true iff GetCell reports EMPTY there |
| `Chess.ChessBoard.GetCell` | ChessProject-PHP/src/ChessBoard.php:67-70 | fails with OutOfBounds exactly on an illegal position; otherwise returns that cell's content |
| `Chess.ChessBoard.GetCells` | ChessProject-PHP/src/ChessBoard.php:53-55 | the copy has BoardWidth columns of BoardHeight cells on the 8 × 8 board, and each entry is what GetCell reports for it |
| `Chess.ChessBoard.GetSquareSize` | ChessProject-PHP/src/ChessBoard.php:60-62 | (8, 8) on the 8 × 8 board; (w-1, h-1) is a cell while (w, h-1) and (w-1, h) are not |
| `Chess.ChessBoard.Add` | ChessProject-PHP/src/ChessBoard.php:19-33 | OutOfBounds on an illegal position, else CellOccupied on a non-EMPTY cell, with board and piece unchanged; otherwise only cell (x, y) changes, it holds p, p is at (x, y) on this board; the invariant is kept |
| `Chess.ChessBoard.HandleMove` | ChessProject-PHP/src/Piece.php:84 | assumed contract: from the mid-move state (mover already at its new coordinates), the grid becomes Relocate of the old grid, the victim is captured at (INVALID, INVALID), and the invariant is restored |
| `Chess.ChessBoard.MovePreservesValid` | ChessProject-PHP/src/Piece.php:81-84 | vacating the origin, writing the mover at its new coordinates and capturing the former occupant restores the board invariant |
| `Chess.Piece.constructor` | ChessProject-PHP/src/Piece.php:22-27 | a new piece keeps its colour, has coordinates (INVALID, INVALID), no board, and is active |
| `Chess.Piece.Initialise` | ChessProject-PHP/src/Piece.php:29-33 | sets the board and both coordinates and leaves the captured flag alone |
| `Chess.Piece.IsWhite` | ChessProject-PHP/src/Piece.php:45-47 | the colour the piece was made with |
| `Chess.Piece.IsBlack` | ChessProject-PHP/src/Piece.php:45-50 | isBlack is always the negation of isWhite |
| `Chess.Piece.ColourName` | ChessProject-PHP/src/Piece.php:51-57 | 'white' iff the piece is white, 'black' iff it is black; the throw after both tests cannot be reached |
| `Chess.Piece.IsActive` | ChessProject-PHP/src/Piece.php:58-63 | a piece is active iff it is not captured |
| `Chess.Piece.IsFriendly` | ChessProject-PHP/src/Piece.php:65-70 | comparing colour names holds iff the two pieces have the same colour |
| `Chess.Piece.ValidPattern` | ChessProject-PHP/src/Piece.php:125-130 | the kind's pattern rule applied to a snapshot of the position: current grid, colour, origin and destination |
| `Chess.Piece.ValidPath` | ChessProject-PHP/src/Piece.php:132-137 | the kind's path rule applied to the same snapshot |
| `Chess.Piece.ValidMove` | ChessProject-PHP/src/Piece.php:89-123 | on success the destination exists; it is a relocation iff the destination is EMPTY, else a capture of the occupant, which is never of the mover's colour; the "should never end up here" throw is unreachable |
| `Chess.Piece.Move` | ChessProject-PHP/src/Piece.php:72-87 | fails iff ValidMove fails, with its error, leaving the piece, the board and every piece unchanged; on success the piece is at (newX, newY), the grid is Relocate of the old one, the victim is inactive at (INVALID, INVALID), no other piece changes, and the invariant holds |
| `Chess.Piece.CapturedBy` | ChessProject-PHP/src/Piece.php:139-145 | the piece becomes inactive at (INVALID, INVALID), keeps its board, and every later ValidMove fails with InactivePiece |
| `Chess.FriendlyIsEquivalence` | ChessProject-PHP/src/Piece.php:68-70 | isFriendly is reflexive, symmetric and transitive |
| `Chess.ActiveIffOnGrid` | ChessProject-PHP/src/Piece.php:58-63 | on a valid board, a placed piece is active iff some cell holds it; only the cell its coordinates name can hold it; a captured one is at (INVALID, INVALID) |
| `Chess.ValidMoveChecksInOrder` | ChessProject-PHP/src/Piece.php:94-117 | validMove fails iff one of its five checks fails (inactive, illegal position, pattern, path, friendly occupant), and its error is the first failing check's, in that order |
| `Chess.NoNullMove` | ChessProject-PHP/src/Piece.php:114-117 | on a valid board a move onto the piece's own cell always fails |
| `Chess.ValidMoveOnValidBoard` | ChessProject-PHP/src/Piece.php:98-119 | on a valid board an accepted move stays within 8 × 8, leaves the origin and comes from an active piece; its victim is an active enemy piece of the board at the destination, distinct from the mover |
| `Pawn.PawnPattern` | ChessProject-PHP/tests/PawnTest.php:70-149 | test-derived: an accepted pawn pattern is one row forward (+1 white, -1 black), straight exactly when the destination is EMPTY |
| `Pawn.PawnPath` | ChessProject-PHP/tests/PawnTest.php:70-91 | test-derived: a pawn's single-square move always has a clear path |
| `Pawn.PawnMoves` | ChessProject-PHP/tests/PawnTest.php:93-162 | test-derived: a pawn's accepted move is one row forward; a relocation iff straight, a capture iff diagonal |
| `Pawn.WhiteMovesUpwards` | ChessProject-PHP/tests/PawnTest.php:70-75 | white pawn from (6, 2) to (6, 3) succeeds and ends at (6, 3) |
| `Pawn.WhiteCannotMoveBackOrSideways` | ChessProject-PHP/tests/PawnTest.php:46-80 | white pawn at (6, 3) fails with IllegalPattern towards (6, 2), (7, 3) and (5, 3), and stays at (6, 3) |
| `Pawn.BlackMovesDownwards` | ChessProject-PHP/tests/PawnTest.php:81-91 | black pawn at (4, 4) fails towards (4, 5) and then moves to (4, 3) |
| `Pawn.IllegalDestinations` | ChessProject-PHP/tests/PawnTest.php:33-45 | moves to (0, 8) and (0, -1) fail with OutOfBounds |
| `Pawn.WhiteCaptures` | ChessProject-PHP/tests/PawnTest.php:93-111 | white (4, 1) captures black (5, 2): the mover is at (5, 2) and in that cell, the victim is inactive at (INVALID, INVALID) |
| `Pawn.CapturedCannotMove` | ChessProject-PHP/src/Piece.php:95-96 | after that capture, any move of the victim fails with InactivePiece |
| `Pawn.BlackCaptures` | ChessProject-PHP/tests/PawnTest.php:112-130 | black (7, 6) captures white (6, 5), with the same outcome |
| `Pawn.FriendlyObstacle` | ChessProject-PHP/tests/PawnTest.php:57-68 | a straight move onto a friendly pawn fails and neither piece moves |
| `Pawn.WhiteNoForwardCapture` | ChessProject-PHP/tests/PawnTest.php:135-141 | white cannot capture straight ahead |
| `Pawn.BlackNoForwardCapture` | ChessProject-PHP/tests/PawnTest.php:143-149 | black cannot capture straight ahead |
| `Pawn.NoFriendlyCapture` | ChessProject-PHP/tests/PawnTest.php:151-162 | a diagonal move onto a friendly pawn fails with FriendlyCapture and neither piece moves |
| `Pawn.DuplicatePlacement` | ChessProject-PHP/tests/ChessBoardTest.php:59-78 | adding onto an occupied cell fails with CellOccupied; the first piece stays at (6, 3), the second at (INVALID, INVALID) |
| `Pawn.PlacementBounds` | ChessProject-PHP/tests/ChessBoardTest.php:80-108 | placing just outside the square size fails with OutOfBounds; placing at its last cell succeeds and getCell finds the piece |

## Left out

- Pawn.php is not part of this model. The pawn in `pawn.dfy` is derived from the assertions of
  PawnTest.php only (see `Pawn.PawnPattern`):
  - straight one row forward onto an EMPTY cell;
  - diagonally one row forward onto an occupied cell.

  So a straight move onto any piece fails with IllegalPattern, and a diagonal move onto a
  friendly piece fails with FriendlyCapture. The tests only assert that both throw.
- Chess.ChessBoard.HandleMove: not defined in ChessBoard.php. Its contract is the
  assumption stated above, not a model of code.
- Chess.ChessBoard.Add: requires a detached piece (no board, not captured). The source does
  not check this. Adding a piece that is already placed would leave it in two cells with one
  pair of coordinates, and the board invariant cannot describe that state.
- Chess.Piece.ValidPattern, Chess.Piece.ValidPath: the hooks are modelled as functions of a
  snapshot (grid, colour, origin, destination) with no side effects. A PHP override is a method
  that may read any field of the piece and may change state. The model's promise that a failed
  `Move` leaves everything unchanged relies on hooks without side effects.
- Chess.ChessBoard.Add: `setXCoordinate`/`setYCoordinate` are not defined in Piece.php. They are modelled as `initialise`, which also records the board.
- Chess.Piece.Move: requires a placed piece on a valid board. Moving a never-placed piece
  dereferences a null board in the source, which is a run-time error and not a modelled one.
- Chess.ChessBoard.Add: the `is_int` check (ChessBoard.php:27) is vacuous over Dafny `int`.
  So is `isset` on non-integer keys. The "non-integer coordinate" error kind is left out with
  them.
- Exception classes and messages, and `__toString`: errors are kinds (`ChessError`) and do not
  carry the coordinates or the piece's description.
- `getX`/`getY`: the model reads the coordinate fields directly.
- `getWidth`/`getSquareHeight`, called by the tests: not defined in ChessBoard.php. The model
  uses the constants `BoardWidth` and `BoardHeight`.
- Promotions (a TODO at Piece.php:86).
- Board sizes overridden through `static::` in a subclass: the board is a fixed 8 × 8.
- The argument of `capturedBy` is unused in the source, and in the model too.
