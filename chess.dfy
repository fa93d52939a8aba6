/** The board and the abstract piece of the chess model, with the move-validation pipeline.
    Both classes live in one module because each refers to the other: a cell holds a piece,
    and a placed piece holds its board. */
module Chess {
  import opened Wrappers

  const BoardWidth: nat := 8
  const BoardHeight: nat := 8
  /** The coordinate a piece carries while it is not placed, or after it is captured. */
  const Invalid: int := -1

  /** The error kinds the board and the pieces raise. */
  datatype ChessError =
    | OutOfBounds      // the coordinates do not address an existing cell
    | CellOccupied     // placement onto a cell that is not empty
    | InactivePiece    // a captured piece was asked to move
    | IllegalPattern   // the destination does not fit the piece's moving pattern
    | BlockedPath      // the way towards the destination is not clear
    | FriendlyCapture  // the destination holds a piece of the mover's colour

  /** A cell holds the board's EMPTY marker or a piece. */
  datatype Cell = Empty | Occupied(piece: Piece)

  type Grid = seq<seq<Cell>>

  /** What a valid move does to its destination: a plain relocation, or the capture of its occupant. */
  datatype Destination = Relocation | Capture(victim: Piece)

  /** What a piece's pattern and path rules are shown of the position. */
  datatype MoveQuery = MoveQuery(cells: Grid, white: bool, x: int, y: int, newX: int, newY: int)

  /** The two hooks every kind of piece supplies: the geometric pattern check, and the check
      that the squares strictly between origin and destination are clear. */
  datatype Rules = Rules(validPattern: MoveQuery -> bool, validPath: MoveQuery -> bool)

  /** True iff (x, y) addresses an existing cell of g. */
  predicate CellExists(g: Grid, x: int, y: int) {
    0 <= x < |g| && 0 <= y < |g[x]|
  }

  /** The board's shape, for any grid: BoardWidth columns of BoardHeight cells. */
  ghost predicate RectangularGrid(g: Grid) {
    |g| == BoardWidth && forall i | 0 <= i < |g| :: |g[i]| == BoardHeight
  }

  /** g with cell (x, y) overwritten by c; the shape and every other cell stay as they were. */
  function Place(g: Grid, x: int, y: int, c: Cell): (r: Grid)
    requires CellExists(g, x, y)
    ensures |r| == |g| && forall i | 0 <= i < |g| :: |r[i]| == |g[i]|
    ensures r[x][y] == c
    ensures forall i, j | CellExists(g, i, j) && (i != x || j != y) :: r[i][j] == g[i][j]
  {
    g[x := g[x][y := c]]
  }

  /** The grid after a move of p from (fromX, fromY) to (toX, toY): the origin is vacated and the
      destination holds p, whatever it held before. */
  function Relocate(g: Grid, fromX: int, fromY: int, toX: int, toY: int, p: Piece): (r: Grid)
    requires CellExists(g, fromX, fromY) && CellExists(g, toX, toY)
    ensures |r| == |g| && forall i | 0 <= i < |g| :: |r[i]| == |g[i]|
    ensures r[toX][toY] == Occupied(p)
    ensures (fromX != toX || fromY != toY) ==> r[fromX][fromY] == Empty
    ensures forall i, j | CellExists(g, i, j) && (i != fromX || j != fromY) && (i != toX || j != toY) ::
      r[i][j] == g[i][j]
  {
    Place(Place(g, fromX, fromY, Empty), toX, toY, Occupied(p))
  }

  class ChessBoard {
    var cells: Grid
    /** Every piece ever placed on this board, captured ones included. */
    ghost var pieces: set<Piece>

    /** The board's shape: BoardWidth columns of BoardHeight cells. */
    ghost predicate Rectangular()
      reads this
    {
      RectangularGrid(cells)
    }

    /** Every occupied cell holds an active piece of this board whose coordinates name that cell;
        a piece other than `moving` must agree exactly, `moving` may already carry new coordinates. */
    ghost predicate CellsAgree(moving: Piece?)
      reads this, pieces
    {
      forall i, j | CellExists(cells, i, j) && cells[i][j].Occupied? ::
        cells[i][j].piece in pieces && !cells[i][j].piece.isCaptured &&
        (cells[i][j].piece != moving ==>
           cells[i][j].piece.xCoordinate == i && cells[i][j].piece.yCoordinate == j)
    }

    /** Every piece of this board refers back to it; a captured piece is at (Invalid, Invalid);
        an active piece other than `moving` is held by the cell its coordinates name. */
    ghost predicate PiecesAgree(moving: Piece?)
      reads this, pieces
    {
      PiecesAgreeOn(cells, moving)
    }

    /** PiecesAgree, stated of an arbitrary grid `g` in place of the board's cells. */
    ghost predicate PiecesAgreeOn(g: Grid, moving: Piece?)
      reads this, pieces
    {
      forall q | q in pieces ::
        q.chessBoard == this &&
        (q.isCaptured ==> q.xCoordinate == Invalid && q.yCoordinate == Invalid) &&
        (!q.isCaptured && q != moving ==>
           CellExists(g, q.xCoordinate, q.yCoordinate) &&
           g[q.xCoordinate][q.yCoordinate] == Occupied(q))
    }

    /** The board invariant: the grid and the pieces' own coordinates tell the same story. */
    ghost predicate Valid()
      reads this, pieces
    {
      Rectangular() && CellsAgree(null) && PiecesAgree(null)
    }

    /** The state handleMove receives: `p` already carries its destination coordinates, its
        origin (formerX, formerY) still holds it and no other cell does, and `dest` says what
        the destination cell holds. */
    ghost predicate MidMove(p: Piece, dest: Destination, formerX: int, formerY: int)
      reads this, pieces
    {
      Rectangular() && CellsAgree(p) && PiecesAgree(p) &&
      p in pieces && !p.isCaptured &&
      CellExists(cells, formerX, formerY) && cells[formerX][formerY] == Occupied(p) &&
      (forall i, j | CellExists(cells, i, j) && cells[i][j] == Occupied(p) :: i == formerX && j == formerY) &&
      CellExists(cells, p.xCoordinate, p.yCoordinate) &&
      match dest
      case Relocation => cells[p.xCoordinate][p.yCoordinate] == Empty
      case Capture(v) =>
        v != p && cells[p.xCoordinate][p.yCoordinate] == Occupied(v)
    }

    /** A new board: BoardWidth by BoardHeight cells, all EMPTY. */
    constructor ()
      ensures Valid() && pieces == {}
      ensures |cells| == BoardWidth
      ensures forall i | 0 <= i < BoardWidth :: |cells[i]| == BoardHeight
      ensures forall i, j | 0 <= i < BoardWidth && 0 <= j < BoardHeight :: cells[i][j] == Empty
    {
      cells := seq(BoardWidth, _ => seq(BoardHeight, _ => Empty));
      pieces := {};
    }

    /** Whether (x, y) is a cell of this board; with `throw` set, an illegal position is an error. */
    function IsLegalBoardPosition(x: int, y: int, throw: bool): (r: Result<bool, ChessError>)
      reads this
      ensures r.Failure? <==> throw && !CellExists(cells, x, y)
      ensures r.Failure? ==> r.error == OutOfBounds
      ensures r.Success? ==> (r.value <==> CellExists(cells, x, y))
      ensures r.Success? && Rectangular() ==> (r.value <==> 0 <= x < BoardWidth && 0 <= y < BoardHeight)
    {
      var legal := CellExists(cells, x, y);
      if throw && !legal then Failure(OutOfBounds) else Success(legal)
    }

    /** Whether the cell at a legal (x, y) is EMPTY; an illegal position is an error. */
    function IsCellEmpty(x: int, y: int): (r: Result<bool, ChessError>)
      reads this
      ensures r.Failure? <==> !IsLegalBoardPosition(x, y, false).value
      ensures r.Failure? ==> r.error == OutOfBounds
      ensures r.Success? ==> (r.value <==> GetCell(x, y) == Success(Empty))
    {
      match IsLegalBoardPosition(x, y, true)
      case Failure(e) => Failure(e)
      case Success(_) => Success(cells[x][y] == Empty)
    }

    /** The content of the cell at a legal (x, y); an illegal position is an error. */
    function GetCell(x: int, y: int): (r: Result<Cell, ChessError>)
      reads this
      ensures r.Failure? <==> !IsLegalBoardPosition(x, y, false).value
      ensures r.Failure? ==> r.error == OutOfBounds
      ensures r.Success? ==> CellExists(cells, x, y) && r.value == cells[x][y]
    {
      match IsLegalBoardPosition(x, y, true)
      case Failure(e) => Failure(e)
      case Success(_) => Success(cells[x][y])
    }

    /** A copy of the whole grid: on a valid board, BoardWidth columns of BoardHeight cells, each
        the content GetCell reports for it. */
    function GetCells(): (r: Grid)
      reads this
      ensures Rectangular() ==> |r| == BoardWidth && forall i | 0 <= i < |r| :: |r[i]| == BoardHeight
      ensures forall i, j | 0 <= i < |r| && 0 <= j < |r[i]| :: GetCell(i, j) == Success(r[i][j])
    {
      cells
    }

    /** The number of columns and of cells in the first column: (8, 8) on a valid board. */
    function GetSquareSize(): (r: (int, int))
      reads this
      requires |cells| > 0
      ensures Rectangular() ==> r == (BoardWidth, BoardHeight)
      ensures Rectangular() ==>
        CellExists(cells, r.0 - 1, r.1 - 1) && !CellExists(cells, r.0, r.1 - 1) && !CellExists(cells, r.0 - 1, r.1)
    {
      (|cells|, |cells[0]|)
    }

    /** Places the detached piece p at (x, y): fails on an illegal position, then on an occupied
        cell, leaving everything unchanged; otherwise p is in that cell and carries (x, y). */
    method Add(p: Piece, x: int, y: int) returns (r: Outcome<ChessError>)
      requires Valid()
      requires p.chessBoard == null && !p.isCaptured
      modifies this, p
      ensures Valid()
      ensures r == if !old(CellExists(cells, x, y)) then Fail(OutOfBounds)
                   else if old(cells[x][y]).Occupied? then Fail(CellOccupied)
                   else Pass
      ensures r.Fail? ==> unchanged(this, p)
      ensures r.Pass? ==> cells == Place(old(cells), x, y, Occupied(p)) && pieces == old(pieces) + {p}
      ensures r.Pass? ==> p.xCoordinate == x && p.yCoordinate == y && p.chessBoard == this && !p.isCaptured
    {
      var legal := IsLegalBoardPosition(x, y, false);
      if !legal.value {
        return Fail(OutOfBounds);
      }
      var empty := IsCellEmpty(x, y);
      if !empty.value {
        return Fail(CellOccupied);
      }
      cells := Place(cells, x, y, Occupied(p));
      pieces := pieces + {p};
      p.Initialise(this, x, y);
      r := Pass;
    }

    /** The board's side of a validated move of p (an assumed contract: the method is called by
        the source but not defined in it): vacate (formerX, formerY), put p at its new
        coordinates, and have a victim captured by p. */
    method HandleMove(p: Piece, dest: Destination, formerX: int, formerY: int)
      requires MidMove(p, dest, formerX, formerY)
      modifies this, if dest.Capture? then {dest.victim} else {}
      ensures Valid() && pieces == old(pieces)
      ensures cells == Relocate(old(cells), formerX, formerY, p.xCoordinate, p.yCoordinate, p)
      ensures dest.Capture? ==>
        dest.victim.isCaptured && dest.victim.xCoordinate == Invalid && dest.victim.yCoordinate == Invalid &&
        dest.victim.chessBoard == this
    {
      ghost var before := cells;
      if dest.Capture? {
        assert dest.victim.xCoordinate == p.xCoordinate && dest.victim.yCoordinate == p.yCoordinate;
      }
      cells := Relocate(cells, formerX, formerY, p.xCoordinate, p.yCoordinate, p);
      if dest.Capture? {
        dest.victim.CapturedBy(p);
      }
      MovePreservesValid(before, p, dest, formerX, formerY);
    }

    /** The proof obligation of HandleMove, stated over the grid before the move. */
    lemma MovePreservesValid(before: Grid, p: Piece, dest: Destination, formerX: int, formerY: int)
      requires RectangularGrid(before)
      requires p in pieces && !p.isCaptured && p.chessBoard == this
      requires CellExists(before, formerX, formerY) && before[formerX][formerY] == Occupied(p)
      requires forall i, j | CellExists(before, i, j) && before[i][j] == Occupied(p) :: i == formerX && j == formerY
      requires CellExists(before, p.xCoordinate, p.yCoordinate)
      requires match dest
               case Relocation => before[p.xCoordinate][p.yCoordinate] == Empty
               case Capture(v) =>
                 v != p && before[p.xCoordinate][p.yCoordinate] == Occupied(v) &&
                 v in pieces && v.isCaptured && v.xCoordinate == Invalid && v.yCoordinate == Invalid &&
                 forall i, j | CellExists(before, i, j) && before[i][j] == Occupied(v) ::
                   i == p.xCoordinate && j == p.yCoordinate
      requires forall i, j | CellExists(before, i, j) && before[i][j].Occupied? && before[i][j].piece != p ::
        before[i][j].piece in pieces &&
        ((dest.Capture? && before[i][j] == Occupied(dest.victim)) ||
         (!before[i][j].piece.isCaptured &&
          before[i][j].piece.xCoordinate == i && before[i][j].piece.yCoordinate == j))
      requires PiecesAgreeOn(before, p)
      requires cells == Relocate(before, formerX, formerY, p.xCoordinate, p.yCoordinate, p)
      ensures Valid()
    {
      var nx, ny := p.xCoordinate, p.yCoordinate;
      assert nx != formerX || ny != formerY;
      forall i, j | CellExists(cells, i, j) && cells[i][j].Occupied?
        ensures cells[i][j].piece in pieces && !cells[i][j].piece.isCaptured &&
                cells[i][j].piece.xCoordinate == i && cells[i][j].piece.yCoordinate == j
      {
        if (i != nx || j != ny) && (i != formerX || j != formerY) {
          assert cells[i][j] == before[i][j];
        }
      }
    }
  }

  /** A chess piece: its colour and rules are fixed at construction; its coordinates, its captured
      flag and its board change as it is placed, moves and is captured. */
  class Piece {
    const white: bool
    /** The validPattern and validPath hooks of this piece's kind. */
    const rules: Rules
    var chessBoard: ChessBoard?
    var xCoordinate: int
    var yCoordinate: int
    var isCaptured: bool

    /** A new, detached piece: no board, coordinates (Invalid, Invalid), active. */
    constructor (white: bool, rules: Rules)
      ensures this.white == white && this.rules == rules
      ensures chessBoard == null && xCoordinate == Invalid && yCoordinate == Invalid
      ensures IsActive()
    {
      this.white := white;
      this.rules := rules;
      chessBoard := null;
      xCoordinate := Invalid;
      yCoordinate := Invalid;
      isCaptured := false;
    }

    /** Attaches the piece to a board at (x, y). */
    method Initialise(board: ChessBoard, x: int, y: int)
      modifies this
      ensures chessBoard == board && xCoordinate == x && yCoordinate == y
      ensures isCaptured == old(isCaptured)
    {
      chessBoard := board;
      xCoordinate := x;
      yCoordinate := y;
    }

    /** The colour fixed when the piece was made. */
    function IsWhite(): (r: bool)
      ensures r == white
    {
      white
    }

    function IsBlack(): (r: bool)
      ensures r != IsWhite()
    {
      !white
    }

    /** "white" for a white piece, "black" for a black one; no third outcome can arise. */
    function ColourName(): (r: string)
      ensures r == "white" <==> IsWhite()
      ensures r == "black" <==> IsBlack()
    {
      if IsWhite() then "white"
      else if IsBlack() then "black"
      else assert false; ""
    }

    /** A piece is active until it is captured. */
    predicate IsActive()
      reads this
      ensures IsActive() <==> !isCaptured
    {
      !isCaptured
    }

    /** Whether `check` has the same colour as this piece, compared by colour names. */
    function IsFriendly(check: Piece): (r: bool)
      ensures r <==> check.white == white
    {
      check.ColourName() == ColourName()
    }

    /** What this piece's hooks are shown of a move to (newX, newY). */
    function Query(newX: int, newY: int): MoveQuery
      reads this, chessBoard
      requires chessBoard != null
    {
      MoveQuery(chessBoard.cells, white, xCoordinate, yCoordinate, newX, newY)
    }

    /** The moving-pattern hook: direction and distance only. */
    function ValidPattern(newX: int, newY: int): (r: bool)
      reads this, chessBoard
      requires chessBoard != null
      ensures r == rules.validPattern(MoveQuery(chessBoard.cells, white, xCoordinate, yCoordinate, newX, newY))
    {
      rules.validPattern(Query(newX, newY))
    }

    /** The path hook: the squares towards the destination, not the destination itself. */
    function ValidPath(newX: int, newY: int): (r: bool)
      reads this, chessBoard
      requires chessBoard != null
      ensures r == rules.validPath(MoveQuery(chessBoard.cells, white, xCoordinate, yCoordinate, newX, newY))
    {
      rules.validPath(Query(newX, newY))
    }

    /** Whether (newX, newY) is a cell holding a piece of this piece's colour. */
    predicate DestinationIsFriendly(newX: int, newY: int)
      reads this, chessBoard
      requires chessBoard != null
    {
      CellExists(chessBoard.cells, newX, newY) &&
      chessBoard.cells[newX][newY].Occupied? && chessBoard.cells[newX][newY].piece.IsFriendly(this)
    }

    /** The checks of validMove, in the order it makes them. */
    function MoveChecks(newX: int, newY: int): seq<Check<ChessError>>
      reads this, chessBoard
      requires chessBoard != null
    {
      [ Check(IsActive(), InactivePiece),
        Check(CellExists(chessBoard.cells, newX, newY), OutOfBounds),
        Check(ValidPattern(newX, newY), IllegalPattern),
        Check(ValidPath(newX, newY), BlockedPath),
        Check(!DestinationIsFriendly(newX, newY), FriendlyCapture) ]
    }

    /** Validates a move to (newX, newY) without changing anything (ValidMoveChecksInOrder gives
        its errors); a valid move reports whether the destination is EMPTY (a relocation) or holds
        an enemy piece, which it then names as the victim. */
    function ValidMove(newX: int, newY: int): (r: Result<Destination, ChessError>)
      reads this, chessBoard
      requires chessBoard != null
      ensures r.Success? ==>
        CellExists(chessBoard.cells, newX, newY) &&
        (r.value.Relocation? <==> chessBoard.cells[newX][newY] == Empty)
      ensures r.Success? && r.value.Capture? ==>
        chessBoard.cells[newX][newY] == Occupied(r.value.victim) && r.value.victim.white != white
    {
      if !IsActive() then Failure(InactivePiece)
      else if !chessBoard.IsLegalBoardPosition(newX, newY, false).value then Failure(OutOfBounds)
      else if !ValidPattern(newX, newY) then Failure(IllegalPattern)
      else if !ValidPath(newX, newY) then Failure(BlockedPath)
      else
        match chessBoard.GetCell(newX, newY).value
        case Empty => Success(Relocation)
        case Occupied(q) =>
          if q.IsFriendly(this) then Failure(FriendlyCapture) else Success(Capture(q))
    }

    /** Moves this placed piece to (newX, newY). A move that ValidMove rejects changes nothing;
        a valid move sets the coordinates first and then has the board vacate the origin, put
        the piece at the destination and capture the victim, keeping the board valid. */
    method Move(newX: int, newY: int) returns (r: Outcome<ChessError>)
      requires chessBoard != null && chessBoard.Valid() && this in chessBoard.pieces
      modifies this, chessBoard, chessBoard.pieces
      ensures chessBoard == old(chessBoard) && chessBoard.Valid() && chessBoard.pieces == old(chessBoard.pieces)
      ensures r.Fail? <==> old(ValidMove(newX, newY)).Failure?
      ensures r.Fail? ==>
        r.error == old(ValidMove(newX, newY)).error &&
        unchanged(this, chessBoard) && unchanged(chessBoard.pieces)
      ensures r.Pass? ==>
        xCoordinate == newX && yCoordinate == newY && IsActive() &&
        CellExists(old(chessBoard.cells), old(xCoordinate), old(yCoordinate)) &&
        CellExists(old(chessBoard.cells), newX, newY) &&
        chessBoard.cells == Relocate(old(chessBoard.cells), old(xCoordinate), old(yCoordinate), newX, newY, this)
      ensures r.Pass? && old(ValidMove(newX, newY)).value.Capture? ==>
        var v := old(ValidMove(newX, newY)).value.victim;
        !v.IsActive() && v.xCoordinate == Invalid && v.yCoordinate == Invalid
      ensures forall q | q in old(chessBoard.pieces) && q != this &&
                         old(ValidMove(newX, newY)) != Success(Capture(q)) :: unchanged(q)
    {
      var formerX, formerY := xCoordinate, yCoordinate;
      var destCell := ValidMove(newX, newY);
      if destCell.Failure? {
        return Fail(destCell.error);
      }
      var board := chessBoard;
      assert board.cells[formerX][formerY] == Occupied(this);
      xCoordinate := newX;
      yCoordinate := newY;
      board.HandleMove(this, destCell.value, formerX, formerY);
      r := Pass;
    }

    /** Takes this piece off play: it becomes inactive for good, at (Invalid, Invalid), and every
        later move of it fails at the first check. */
    method CapturedBy(captor: Piece)
      modifies this
      ensures !IsActive() && xCoordinate == Invalid && yCoordinate == Invalid
      ensures chessBoard == old(chessBoard)
      ensures chessBoard != null ==> forall nx, ny :: ValidMove(nx, ny) == Failure(InactivePiece)
    {
      isCaptured := true;
      xCoordinate := Invalid;
      yCoordinate := Invalid;
    }
  }

  /** Friendliness is an equivalence on pieces: reflexive, symmetric and transitive. */
  lemma FriendlyIsEquivalence(a: Piece, b: Piece, c: Piece)
    ensures a.IsFriendly(a)
    ensures a.IsFriendly(b) <==> b.IsFriendly(a)
    ensures a.IsFriendly(b) && b.IsFriendly(c) ==> a.IsFriendly(c)
  {
  }

  /** On a valid board a piece is active exactly when some cell holds it, and then only the cell
      its coordinates name; a captured piece is at (Invalid, Invalid) and in no cell. */
  lemma ActiveIffOnGrid(b: ChessBoard, p: Piece)
    requires b.Valid() && p in b.pieces
    ensures p.IsActive() <==> exists i, j :: CellExists(b.cells, i, j) && b.cells[i][j] == Occupied(p)
    ensures forall i, j | CellExists(b.cells, i, j) && b.cells[i][j] == Occupied(p) ::
      i == p.xCoordinate && j == p.yCoordinate
    ensures !p.IsActive() ==> p.xCoordinate == Invalid && p.yCoordinate == Invalid
  {
    if p.IsActive() {
      assert b.cells[p.xCoordinate][p.yCoordinate] == Occupied(p);
    }
  }

  /** validMove checks in a fixed order (active, legal destination, pattern, path, no friendly
      occupant): it fails exactly when one of MoveChecks fails, with the error of the first. */
  lemma ValidMoveChecksInOrder(p: Piece, newX: int, newY: int)
    requires p.chessBoard != null
    ensures FirstFailure(p.MoveChecks(newX, newY)) ==
      if p.ValidMove(newX, newY).Failure? then Some(p.ValidMove(newX, newY).error) else None
  {
    var checks := p.MoveChecks(newX, newY);
    if !checks[0].passes {
      FirstFailureAt(checks, 0);
    } else if !checks[1].passes {
      FirstFailureAt(checks, 1);
    } else if !checks[2].passes {
      FirstFailureAt(checks, 2);
    } else if !checks[3].passes {
      FirstFailureAt(checks, 3);
    } else if !checks[4].passes {
      FirstFailureAt(checks, 4);
    }
  }

  /** On a valid board a piece cannot move onto its own cell: that move always fails. */
  lemma NoNullMove(b: ChessBoard, p: Piece)
    requires b.Valid() && p in b.pieces
    ensures p.ValidMove(p.xCoordinate, p.yCoordinate).Failure?
  {
    if p.IsActive() {
      assert b.cells[p.xCoordinate][p.yCoordinate] == Occupied(p);
    }
  }

  /** On a valid board a move that ValidMove accepts stays inside the 8 by 8 board, and the
      victim it names is an active enemy piece of the same board, other than the mover. */
  lemma ValidMoveOnValidBoard(b: ChessBoard, p: Piece, newX: int, newY: int)
    requires b.Valid() && p in b.pieces
    requires p.ValidMove(newX, newY).Success?
    ensures 0 <= newX < BoardWidth && 0 <= newY < BoardHeight
    ensures p.IsActive() && (newX != p.xCoordinate || newY != p.yCoordinate)
    ensures p.ValidMove(newX, newY).value.Capture? ==>
      var v := p.ValidMove(newX, newY).value.victim;
      v in b.pieces && v.IsActive() && v != p && v.white != p.white &&
      v.xCoordinate == newX && v.yCoordinate == newY
  {
    NoNullMove(b, p);
    assert b.cells[newX][newY].Occupied? ==> b.cells[newX][newY].piece in b.pieces;
  }
}
