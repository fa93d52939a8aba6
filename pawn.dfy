/** A pawn: the one kind of piece the repository's tests exercise. Its rules are derived from
    what those tests assert, since the pawn's own source is not part of this model: a pawn
    advances one row towards the opponent, straight onto an EMPTY cell or diagonally onto an
    occupied one, and its path is always clear. */
module Pawn {
  import opened Wrappers
  import opened Chess

  /** The row step of a pawn: +1 for white, -1 for black. */
  function Forward(white: bool): int {
    if white then 1 else -1
  }

  /** The content of (x, y) in g, or EMPTY where there is no such cell. */
  function CellAt(g: Grid, x: int, y: int): Cell {
    if CellExists(g, x, y) then g[x][y] else Empty
  }

  /** One row forward: straight onto an EMPTY cell, or diagonally onto an occupied one. */
  function PawnPattern(q: MoveQuery): (r: bool)
    ensures r ==> q.newY - q.y == Forward(q.white)
    ensures r ==> (q.newX == q.x <==> CellAt(q.cells, q.newX, q.newY) == Empty)
  {
    q.newY == q.y + Forward(q.white) &&
    if q.newX == q.x then CellAt(q.cells, q.newX, q.newY) == Empty
    else (q.newX == q.x + 1 || q.newX == q.x - 1) && CellAt(q.cells, q.newX, q.newY).Occupied?
  }

  /** A single-square move has no squares between origin and destination. */
  function PawnPath(q: MoveQuery): (r: bool)
    ensures r
  {
    true
  }

  function PawnRules(): Rules {
    Rules(PawnPattern, PawnPath)
  }

  /** What a pawn's accepted move is: one row forward; a relocation exactly when it goes straight,
      a capture of an enemy exactly when it goes diagonally. */
  lemma PawnMoves(p: Piece, newX: int, newY: int)
    requires p.chessBoard != null && p.rules == PawnRules()
    requires p.ValidMove(newX, newY).Success?
    ensures newY == p.yCoordinate + Forward(p.white)
    ensures p.ValidMove(newX, newY).value.Relocation? <==> newX == p.xCoordinate
    ensures p.ValidMove(newX, newY).value.Capture? <==>
      newX == p.xCoordinate + 1 || newX == p.xCoordinate - 1
  {
    assert PawnPattern(p.Query(newX, newY));
  }

  /** White pawn at (6, 2) moves to (6, 3). */
  method WhiteMovesUpwards() returns (r: Outcome<ChessError>, pawn: Piece)
    ensures r == Pass && pawn.xCoordinate == 6 && pawn.yCoordinate == 3
  {
    var board := new ChessBoard();
    pawn := new Piece(true, PawnRules());
    var added := board.Add(pawn, 6, 2);
    r := pawn.Move(6, 3);
  }

  /** White pawn at (6, 3) cannot move to (6, 2), (7, 3) or (5, 3), and stays where it is. */
  method WhiteCannotMoveBackOrSideways()
    returns (back: Outcome<ChessError>, right: Outcome<ChessError>, left: Outcome<ChessError>, pawn: Piece)
    ensures back == Fail(IllegalPattern) && right == Fail(IllegalPattern) && left == Fail(IllegalPattern)
    ensures pawn.xCoordinate == 6 && pawn.yCoordinate == 3
  {
    var board := new ChessBoard();
    pawn := new Piece(true, PawnRules());
    var added := board.Add(pawn, 6, 3);
    back := pawn.Move(6, 2);
    right := pawn.Move(7, 3);
    left := pawn.Move(5, 3);
  }

  /** Black pawn at (4, 4) cannot move to (4, 5) but does move to (4, 3). */
  method BlackMovesDownwards() returns (up: Outcome<ChessError>, down: Outcome<ChessError>, pawn: Piece)
    ensures up == Fail(IllegalPattern) && down == Pass
    ensures pawn.xCoordinate == 4 && pawn.yCoordinate == 3
  {
    var board := new ChessBoard();
    pawn := new Piece(false, PawnRules());
    var added := board.Add(pawn, 4, 4);
    up := pawn.Move(4, 5);
    down := pawn.Move(4, 3);
  }

  /** Moves off the board fail: white at (0, 7) to (0, 8), black at (0, 0) to (0, -1). */
  method IllegalDestinations() returns (high: Outcome<ChessError>, low: Outcome<ChessError>)
    ensures high == Fail(OutOfBounds) && low == Fail(OutOfBounds)
  {
    var board := new ChessBoard();
    var white := new Piece(true, PawnRules());
    var black := new Piece(false, PawnRules());
    var added := board.Add(white, 0, BoardHeight - 1);
    added := board.Add(black, 0, 0);
    high := white.Move(0, BoardHeight);
    low := black.Move(0, -1);
  }

  /** White pawn at (4, 1) captures the black pawn at (5, 2): it holds (5, 2), the victim is
      inactive at (Invalid, Invalid). */
  method WhiteCaptures() returns (r: Outcome<ChessError>, white: Piece, black: Piece, board: ChessBoard)
    ensures r == Pass && board.Valid() && board.pieces == {white, black}
    ensures fresh(board) && fresh(white) && fresh(black)
    ensures white.xCoordinate == 5 && white.yCoordinate == 2 && board.cells[5][2] == Occupied(white)
    ensures white.IsActive() && !black.IsActive()
    ensures black.xCoordinate == Invalid && black.yCoordinate == Invalid
  {
    board := new ChessBoard();
    white := new Piece(true, PawnRules());
    black := new Piece(false, PawnRules());
    var added := board.Add(white, 4, 1);
    added := board.Add(black, 5, 2);
    r := white.Move(5, 2);
  }

  /** After that capture the victim cannot move, wherever it tries to go. */
  method CapturedCannotMove(newX: int, newY: int) returns (r: Outcome<ChessError>)
    ensures r == Fail(InactivePiece)
  {
    var _, _, black, _ := WhiteCaptures();
    r := black.Move(newX, newY);
  }

  /** Black pawn at (7, 6) captures the white pawn at (6, 5). */
  method BlackCaptures() returns (r: Outcome<ChessError>, white: Piece, black: Piece, board: ChessBoard)
    ensures r == Pass && board.Valid()
    ensures black.xCoordinate == 6 && black.yCoordinate == 5 && board.cells[6][5] == Occupied(black)
    ensures black.IsActive() && !white.IsActive()
    ensures white.xCoordinate == Invalid && white.yCoordinate == Invalid
  {
    board := new ChessBoard();
    white := new Piece(true, PawnRules());
    black := new Piece(false, PawnRules());
    var added := board.Add(white, 6, 5);
    added := board.Add(black, 7, 6);
    r := black.Move(6, 5);
  }

  /** A white pawn cannot move straight onto a white pawn; neither piece moves. */
  method FriendlyObstacle() returns (r: Outcome<ChessError>, a: Piece, b: Piece)
    ensures r == Fail(IllegalPattern)
    ensures a.xCoordinate == 5 && a.yCoordinate == 5 && b.xCoordinate == 5 && b.yCoordinate == 6
  {
    var board := new ChessBoard();
    a := new Piece(true, PawnRules());
    b := new Piece(true, PawnRules());
    var added := board.Add(a, 5, 5);
    added := board.Add(b, 5, 6);
    r := a.Move(5, 6);
  }

  /** White pawn at (4, 1) cannot capture the black pawn straight ahead at (4, 2). */
  method WhiteNoForwardCapture() returns (r: Outcome<ChessError>)
    ensures r == Fail(IllegalPattern)
  {
    var board := new ChessBoard();
    var white := new Piece(true, PawnRules());
    var black := new Piece(false, PawnRules());
    var added := board.Add(white, 4, 1);
    added := board.Add(black, 4, 2);
    r := white.Move(4, 2);
  }

  /** Black pawn at (0, 7) cannot capture the white pawn straight ahead at (0, 6). */
  method BlackNoForwardCapture() returns (r: Outcome<ChessError>)
    ensures r == Fail(IllegalPattern)
  {
    var board := new ChessBoard();
    var white := new Piece(true, PawnRules());
    var black := new Piece(false, PawnRules());
    var added := board.Add(black, 0, 7);
    added := board.Add(white, 0, 6);
    r := black.Move(0, 6);
  }

  /** The diagonal move of white (4, 1) onto white (5, 2) is a capture of a friendly piece. */
  method NoFriendlyCapture() returns (r: Outcome<ChessError>, a: Piece, b: Piece)
    ensures r == Fail(FriendlyCapture)
    ensures a.xCoordinate == 4 && a.yCoordinate == 1 && b.xCoordinate == 5 && b.yCoordinate == 2
  {
    var board := new ChessBoard();
    a := new Piece(true, PawnRules());
    b := new Piece(true, PawnRules());
    var added := board.Add(a, 4, 1);
    added := board.Add(b, 5, 2);
    r := a.Move(5, 2);
  }

  // The board's own placement scenarios follow; they live here because placing needs a concrete
  // kind of piece, and the only kind the tests place is a pawn.

  /** A second piece added onto an occupied cell is refused; the first keeps (6, 3), the second
      stays at (Invalid, Invalid). */
  method DuplicatePlacement() returns (r: Outcome<ChessError>, first: Piece, second: Piece)
    ensures r == Fail(CellOccupied)
    ensures first.xCoordinate == 6 && first.yCoordinate == 3
    ensures second.xCoordinate == Invalid && second.yCoordinate == Invalid
  {
    var board := new ChessBoard();
    first := new Piece(false, PawnRules());
    second := new Piece(false, PawnRules());
    var added := board.Add(first, 6, 3);
    r := board.Add(second, 6, 3);
  }

  /** With (width, height) the board's square size, placing at (width, height - 1),
      (width, height) or (width - 1, height) is refused, and a piece placed at
      (width - 1, height - 1) is found there. */
  method PlacementBounds()
    returns (x: Outcome<ChessError>, xy: Outcome<ChessError>, y: Outcome<ChessError>,
             pawn: Piece, found: Result<Cell, ChessError>)
    ensures x == Fail(OutOfBounds) && xy == Fail(OutOfBounds) && y == Fail(OutOfBounds)
    ensures found == Success(Occupied(pawn))
  {
    var board := new ChessBoard();
    pawn := new Piece(false, PawnRules());
    var size := board.GetSquareSize();
    var width, height := size.0, size.1;
    x := board.Add(pawn, width, height - 1);
    xy := board.Add(pawn, width, height);
    y := board.Add(pawn, width - 1, height);
    var added := board.Add(pawn, width - 1, height - 1);
    found := board.GetCell(width - 1, height - 1);
  }
}
