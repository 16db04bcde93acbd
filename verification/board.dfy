/**
 * The Board class of Board.java with its fields updated in place. The 8x8 array of pieces is one
 * array of 64 squares, cell (r, c) at index 8r + c. Every method is proved to compute the function
 * of the previous state that models it: the validators return the rule function's verdict and leave
 * the array exactly as they found it, and the state-changing methods end in the state that function
 * prescribes.
 */
module ChessBoard {
  import opened Util
  import opened Pieces
  import opened Positions
  import opened Rules
  import opened RulesLemmas
  import opened Execution
  import opened Notation
  import opened NotationLemmas
  import opened Setup

  class Board {
    var squares: array<Square>
    var currentPlayerTurn: PieceColor
    var pieceCounts: map<Piece, int>
    var enPassantTargetSquare: Option<Pos>
    var whiteKingMoved: bool
    var blackKingMoved: bool
    var whiteRookAMoved: bool
    var whiteRookHMoved: bool
    var blackRookAMoved: bool
    var blackRookHMoved: bool

    predicate Valid()
      reads this
    {
      squares.Length == 64
    }

    function CastlingFlags(): Flags
      reads this
    {
      Flags(whiteKingMoved, blackKingMoved, whiteRookAMoved, whiteRookHMoved, blackRookAMoved, blackRookHMoved)
    }

    /** The object's state as a value. */
    function State(): Position
      reads this, squares
      requires Valid()
    {
      Position(squares[..], currentPlayerTurn, CastlingFlags(), enPassantTargetSquare, pieceCounts)
    }

    /** new Board(): the starting position, White to move, no castling flag set, no en-passant target. */
    constructor()
      ensures Valid() && fresh(squares)
      ensures State() == InitialPosition()
    {
      squares := new Square[64](_ => None);
      pieceCounts := ZeroCounts();
      currentPlayerTurn := White;
      enPassantTargetSquare := None;
      whiteKingMoved, blackKingMoved := false, false;
      whiteRookAMoved, whiteRookHMoved := false, false;
      blackRookAMoved, blackRookHMoved := false, false;
      new;
      assert squares[..] == EmptyGrid();
      ZeroCountsOfEmpty();
      SetupInitialBoard();
    }

    /** squares[r][c] = new Piece(...) followed by incrementPieceCount on an empty square. */
    method PutNew(r: int, c: int, q: Piece)
      requires Valid() && InBounds(r, c) && squares[Index(r, c)] == None
      requires pieceCounts == CountsOf(squares[..])
      modifies this`pieceCounts, squares
      ensures squares[..] == old(squares[..])[Index(r, c) := Some(q)]
      ensures pieceCounts == CountsOf(squares[..])
    {
      ghost var g := squares[..];
      squares[Index(r, c)] := Some(q);
      pieceCounts := Bump(pieceCounts, q, 1);
      CountsOfUpdate(g, Index(r, c), Some(q));
    }

    /** setupInitialBoard: pawns on rows 1 and 6, then the two back ranks, counting each piece placed. */
    method SetupInitialBoard()
      requires Valid() && squares[..] == EmptyGrid() && pieceCounts == CountsOf(squares[..])
      modifies this`pieceCounts, squares
      ensures squares[..] == InitialGrid() && pieceCounts == CountsOf(squares[..])
    {
      for i := 0 to 8
        invariant pieceCounts == CountsOf(squares[..])
        invariant forall r, c :: InBounds(r, c) ==>
          squares[Index(r, c)] == if (r == 1 || r == 6) && c < i then InitialSquare(r, c) else None
      {
        PutNew(1, i, Piece(Pawn, Black));
        PutNew(6, i, Piece(Pawn, White));
      }
      for c := 0 to 8
        invariant pieceCounts == CountsOf(squares[..])
        invariant forall r, c' :: InBounds(r, c') ==>
          squares[Index(r, c')] == if r == 1 || r == 6 || ((r == 0 || r == 7) && c' < c) then InitialSquare(r, c') else None
      {
        PutNew(0, c, Piece(BackRankType(c), Black));
        PutNew(7, c, Piece(BackRankType(c), White));
      }
      assert forall i | 0 <= i < 64 :: squares[i] == squares[Index(i / 8, i % 8)];
    }

    /** clearBoard: every square emptied, counts zeroed, en-passant target and flags reset; the turn stays. */
    method ClearBoard()
      requires Valid()
      modifies this, squares
      ensures Valid() && squares == old(squares)
      ensures State() == Setup.ClearBoard(old(State()))
    {
      for r := 0 to 8
        modifies squares
        invariant forall i :: 0 <= i < 8 * r ==> squares[i] == None
      {
        for c := 0 to 8
          modifies squares
          invariant forall i :: 0 <= i < 8 * r + c ==> squares[i] == None
        {
          squares[Index(r, c)] := None;
        }
      }
      assert squares[..] == EmptyGrid();
      pieceCounts := ZeroCounts();
      enPassantTargetSquare := None;
      whiteKingMoved, blackKingMoved := false, false;
      whiteRookAMoved, whiteRookHMoved := false, false;
      blackRookAMoved, blackRookHMoved := false, false;
    }

    /** canPlacePiece. */
    method CanPlacePiece(newPieceType: PieceType, newPieceColor: PieceColor, targetRow: int, targetCol: int) returns (ok: bool)
      requires Valid() && InBounds(targetRow, targetCol)
      ensures ok == CanPlace(State(), Piece(newPieceType, newPieceColor), targetRow, targetCol)
    {
      var existingPiece := squares[Index(targetRow, targetCol)];
      if existingPiece != None && existingPiece.value.kind == newPieceType && existingPiece.value.color == newPieceColor {
        return true;
      }
      var currentCount := Get(pieceCounts, Piece(newPieceType, newPieceColor));
      var maxLimit := match newPieceType
        case King => 1
        case Queen => 1
        case Rook => 2
        case Knight => 2
        case Bishop => 2
        case Pawn => 8;
      if currentCount >= maxLimit {
        return false;
      }
      return true;
    }

    /** placePiece. */
    method PlacePiece(placementNotation: string) returns (ok: bool)
      requires Valid()
      modifies this, squares
      ensures Valid() && squares == old(squares)
      ensures (ok, State()) == Setup.PlacePiece(old(State()), placementNotation)
    {
      if !IsPlacementForm(placementNotation) {
        return false;
      }
      var pieceChar, fileChar, rankChar := placementNotation[0], placementNotation[1], placementNotation[2];
      var pieceColor := if IsUpper(pieceChar) then White else Black;
      var pieceType := LowerLetterType(ToLower(pieceChar));
      var col := FileCol(fileChar);
      var row := RankRow(rankChar);
      var can := CanPlacePiece(pieceType, pieceColor, row, col);
      if !can {
        return false;
      }
      var oldPiece := squares[Index(row, col)];
      if oldPiece != None && (oldPiece.value.kind != pieceType || oldPiece.value.color != pieceColor) {
        pieceCounts := Bump(pieceCounts, oldPiece.value, -1);
      }
      squares[Index(row, col)] := Some(Piece(pieceType, pieceColor));
      if oldPiece == None || (oldPiece.value.kind != pieceType || oldPiece.value.color != pieceColor) {
        pieceCounts := Bump(pieceCounts, Piece(pieceType, pieceColor), 1);
      }
      return true;
    }

    /** setPlayerTurn. */
    method SetPlayerTurn(color: PieceColor)
      requires Valid()
      modifies this
      ensures Valid() && squares == old(squares)
      ensures State() == old(State()).(turn := color)
    {
      currentPlayerTurn := color;
    }

    /** getPiece: the square's contents, or nothing for coordinates off the board. */
    method GetPiece(row: int, col: int) returns (piece: Square)
      requires Valid()
      ensures piece == if InBounds(row, col) then At(State().grid, row, col) else None
    {
      if row < 0 || row >= 8 || col < 0 || col >= 8 {
        return None;
      }
      return squares[Index(row, col)];
    }

    /** getCurrentPlayerTurn. */
    method GetCurrentPlayerTurn() returns (color: PieceColor)
      requires Valid()
      ensures color == State().turn
    {
      return currentPlayerTurn;
    }

    /** switchTurn. */
    method SwitchTurn()
      requires Valid()
      modifies this
      ensures Valid() && squares == old(squares)
      ensures State() == Execution.SwitchTurn(old(State()))
    {
      if currentPlayerTurn == White {
        currentPlayerTurn := Black;
      } else {
        currentPlayerTurn := White;
      }
    }

    /** isPathClear: walk from the start towards the end and stop at the first occupied square. */
    method IsPathClear(startRow: int, startCol: int, endRow: int, endCol: int) returns (clear: bool)
      requires Valid() && InBounds(startRow, startCol) && InBounds(endRow, endCol)
      requires OnLine(startRow, startCol, endRow, endCol)
      ensures clear == PathClear(State().grid, startRow, startCol, endRow, endCol)
    {
      ghost var g := State().grid;
      ghost var dist := Dist(startRow, startCol, endRow, endCol);
      var rowDir := Sign(endRow - startRow);
      var colDir := Sign(endCol - startCol);
      var currentRow := startRow + rowDir;
      var currentCol := startCol + colDir;
      ghost var k := 1;
      while currentRow != endRow || currentCol != endCol
        invariant 1 <= k && (k <= dist || dist == 0)
        invariant currentRow == Along(startRow, rowDir, k) && currentCol == Along(startCol, colDir, k)
        invariant forall j | 0 < j < k && j < dist :: StepSquare(g, startRow, startCol, endRow, endCol, j) == None
        decreases dist - k
      {
        AlongReachesEnd(startRow, startCol, endRow, endCol, k);
        StepIsBetween(startRow, startCol, endRow, endCol, k);
        if squares[Index(currentRow, currentCol)] != None {
          assert StepSquare(g, startRow, startCol, endRow, endCol, k) != None;
          return false;
        }
        currentRow := currentRow + rowDir;
        currentCol := currentCol + colDir;
        k := k + 1;
      }
      if dist > 0 {
        AlongReachesEnd(startRow, startCol, endRow, endCol, k);
      }
      return true;
    }

    /** findKing: the first square, in row-major order, holding the king of the given colour. */
    method FindKing(kingColor: PieceColor) returns (kingPos: Option<Pos>)
      requires Valid()
      ensures kingPos == Rules.FindKing(State().grid, kingColor)
    {
      ghost var g: Grid := squares[..];
      for r := 0 to 8
        invariant Rules.FindKing(g, kingColor) == FindKingFrom(g, kingColor, r, 0)
      {
        for c := 0 to 8
          invariant Rules.FindKing(g, kingColor) == FindKingFrom(g, kingColor, r, c)
        {
          var piece := squares[Index(r, c)];
          assert piece == At(g, r, c);
          if piece != None && piece.value.kind == King && piece.value.color == kingColor {
            return Some(Pos(r, c));
          }
        }
        assert FindKingFrom(g, kingColor, r, 8) == FindKingFrom(g, kingColor, r + 1, 0);
      }
      return None;
    }

    /** isValidPieceMove: the geometry of the piece on the start square; a two-column king move asks the castling test. */
    method IsValidPieceMove(startRow: int, startCol: int, endRow: int, endCol: int) returns (ok: bool)
      requires Valid() && InBounds(startRow, startCol) && InBounds(endRow, endCol)
      modifies squares
      ensures squares[..] == old(squares[..])
      ensures ok == PieceMove(State(), startRow, startCol, endRow, endCol)
      decreases Occupied(squares[..]), 2, 0, 0
    {
      var piece := squares[Index(startRow, startCol)];
      if piece == None {
        return false;
      }
      var rowDiff := Abs(endRow - startRow);
      var colDiff := Abs(endCol - startCol);
      var rowDir := Sign(endRow - startRow);
      match piece.value.kind
      case Pawn =>
        var color := piece.value.color;
        if colDiff == 0 {
          if color == White && rowDir == -1 {
            if rowDiff == 1 { return true; }
            if rowDiff == 2 && startRow == 6 && squares[Index(startRow - 1, startCol)] == None { return true; }
          } else if color == Black && rowDir == 1 {
            if rowDiff == 1 { return true; }
            if rowDiff == 2 && startRow == 1 && squares[Index(startRow + 1, startCol)] == None { return true; }
          }
        } else if colDiff == 1 && rowDiff == 1 {
          if color == White && rowDir == -1 { return true; }
          if color == Black && rowDir == 1 { return true; }
        }
        return false;
      case Knight =>
        return (rowDiff == 2 && colDiff == 1) || (rowDiff == 1 && colDiff == 2);
      case Bishop =>
        if rowDiff == colDiff && rowDiff > 0 {
          ok := IsPathClear(startRow, startCol, endRow, endCol);
          return;
        }
        return false;
      case Rook =>
        if (rowDiff > 0 && colDiff == 0) || (colDiff > 0 && rowDiff == 0) {
          ok := IsPathClear(startRow, startCol, endRow, endCol);
          return;
        }
        return false;
      case Queen =>
        if (rowDiff > 0 && colDiff == 0) || (colDiff > 0 && rowDiff == 0) || (rowDiff == colDiff && rowDiff > 0) {
          ok := IsPathClear(startRow, startCol, endRow, endCol);
          return;
        }
        return false;
      case King =>
        if rowDiff <= 1 && colDiff <= 1 && (rowDiff > 0 || colDiff > 0) {
          return true;
        }
        if rowDiff == 0 && colDiff == 2 {
          ok := IsValidCastlingAttempt(startRow, startCol, endRow, endCol);
          return;
        }
        return false;
    }

    /**
     * isKingInCheck: scan for an opposing piece that attacks the king. Pawns are tested by their
     * capture squares; any other piece by its geometry with the king lifted off and put back after.
     */
    method IsKingInCheck(kingColor: PieceColor) returns (check: bool)
      requires Valid()
      modifies squares
      ensures squares[..] == old(squares[..])
      ensures check == InCheck(State(), kingColor)
      decreases Occupied(squares[..]), 0, 9, 0
    {
      ghost var p := State();
      var kingPos := FindKing(kingColor);
      if kingPos == None {
        return false;
      }
      var k := kingPos.value;
      var kingRow, kingCol := k.row, k.col;
      for r := 0 to 8
        invariant squares[..] == p.grid
        invariant InCheck(p, kingColor) == AttackScan(p, kingColor, k, r, 0)
      {
        for c := 0 to 8
          invariant squares[..] == p.grid
          invariant InCheck(p, kingColor) == AttackScan(p, kingColor, k, r, c)
        {
          AttackScanStep(p, kingColor, k, r, c);
          var canAttackKing := AttacksKingFrom(r, c, kingRow, kingCol, kingColor);
          if canAttackKing {
            return true;
          }
        }
      }
      return false;
    }

    /**
     * The body of isKingInCheck's scan for the square (r, c): an opposing pawn attacks diagonally
     * ahead of it; any other opposing piece is asked isValidPieceMove with the king lifted off.
     */
    method AttacksKingFrom(r: int, c: int, kingRow: int, kingCol: int, kingColor: PieceColor) returns (attacks: bool)
      requires Valid() && InBounds(r, c) && InBounds(kingRow, kingCol) && squares[Index(kingRow, kingCol)].Some?
      modifies squares
      ensures squares[..] == old(squares[..])
      ensures attacks == Attacks(old(State()), kingColor, Pos(kingRow, kingCol), r, c)
      decreases Occupied(squares[..]), 0, 0, 0
    {
      ghost var p := State();
      var opponentColor := if kingColor == White then Black else White;
      var opponentPiece := squares[Index(r, c)];
      if opponentPiece == None || opponentPiece.value.color != opponentColor {
        return false;
      }
      if opponentPiece.value.kind == Pawn {
        var pawnRowDir := if opponentPiece.value.color == White then -1 else 1;
        var rowDiff, colDiff := kingRow - r, kingCol - c;
        return Abs(colDiff) == 1 && rowDiff == pawnRowDir;
      }
      var tempKing := squares[Index(kingRow, kingCol)];
      PutSquare(kingRow, kingCol, None);
      OccupiedUpdate(p.grid, Index(kingRow, kingCol), None);
      attacks := IsValidPieceMove(r, c, kingRow, kingCol);
      PutSquare(kingRow, kingCol, tempKing);
    }

    /**
     * isValidCastlingAttempt, with the king additionally required on column 4 (see README): the
     * guards in the source's order, then the king moved one step and two steps along the row with the
     * check test on each, every write undone before returning.
     */
    method IsValidCastlingAttempt(kingStartRow: int, kingStartCol: int, kingEndRow: int, kingEndCol: int) returns (ok: bool)
      requires Valid() && InBounds(kingStartRow, kingStartCol) && InBounds(kingEndRow, kingEndCol)
      modifies squares
      ensures squares[..] == old(squares[..])
      ensures ok == Castling(State(), kingStartRow, kingStartCol, kingEndRow, kingEndCol)
      decreases Occupied(squares[..]), 1, 0, 0
    {
      if kingStartRow != 0 && kingStartRow != 7 { return false; }
      if Abs(kingEndCol - kingStartCol) != 2 || kingStartRow != kingEndRow { return false; }
      if kingStartCol != 4 { return false; }
      if currentPlayerTurn == White {
        if whiteKingMoved { return false; }
      } else {
        if blackKingMoved { return false; }
      }
      var isKingside := kingEndCol == 6;
      var rookStartCol := if isKingside then 7 else 0;
      var rookRow := kingStartRow;
      var rook := squares[Index(rookRow, rookStartCol)];
      if rook == None || rook.value.kind != Rook || rook.value.color != currentPlayerTurn { return false; }
      if currentPlayerTurn == White {
        if isKingside && whiteRookHMoved { return false; }
        if !isKingside && whiteRookAMoved { return false; }
      } else {
        if isKingside && blackRookHMoved { return false; }
        if !isKingside && blackRookAMoved { return false; }
      }
      var inCheck := IsKingInCheck(currentPlayerTurn);
      if inCheck { return false; }
      var clear := IsPathClear(kingStartRow, kingStartCol, rookRow, rookStartCol);
      if !clear { return false; }

      ok := IsSafePassage(kingStartRow, kingStartCol, kingEndCol);
    }

    /**
     * The end of isValidCastlingAttempt: the king moved to the square it passes and then to the square
     * it lands on, the check test on each, and the king put back.
     */
    method IsSafePassage(kingRow: int, kingStartCol: int, kingEndCol: int) returns (ok: bool)
      requires Valid() && InBounds(kingRow, kingStartCol) && InBounds(kingRow, kingEndCol)
      requires CastlingGuard(kingRow, kingStartCol, kingRow, kingEndCol)
      requires PathClear(squares[..], kingRow, kingStartCol, kingRow, RookStartCol(kingEndCol))
      modifies squares
      ensures squares[..] == old(squares[..])
      ensures ok == SafePassage(old(State()), kingRow, kingStartCol, kingEndCol)
      decreases Occupied(squares[..]), 0, 10, 0
    {
      ghost var p := State();
      var intermediateKingCol := kingStartCol + Sign(kingEndCol - kingStartCol);
      CastlingPathEmpty(p.grid, kingRow, kingStartCol, kingRow, kingEndCol);
      var originalKing := squares[Index(kingRow, kingStartCol)];
      ghost var passing := KingStepped(p.grid, kingRow, kingStartCol, intermediateKingCol);
      OccupiedRelocate(p.grid, Index(kingRow, kingStartCol), Index(kingRow, intermediateKingCol));
      KingStepUndone(p.grid, kingRow, kingStartCol, intermediateKingCol);

      var safe := StepKingAndTest(kingRow, kingStartCol, intermediateKingCol, p);
      if !safe {
        SafePassageBlocked(p, kingRow, kingStartCol, kingEndCol);
        PutSquare(kingRow, kingStartCol, originalKing);
        PutSquare(kingRow, intermediateKingCol, None);
        return false;
      }
      SafePassageLanding(p, kingRow, kingStartCol, kingEndCol);
      ok := LandingStep(kingRow, kingStartCol, intermediateKingCol, kingEndCol, p);
    }

    /**
     * The second step of the castling simulation: the king goes on from the intermediate square to its
     * landing square, is tested for check, and the start square, landing square and rook are restored.
     */
    method LandingStep(kingRow: int, kingStartCol: int, intermediateKingCol: int, kingEndCol: int, ghost p: Position)
      returns (safe: bool)
      requires Valid() && InBounds(kingRow, kingStartCol) && InBounds(kingRow, kingEndCol)
      requires CastlingGuard(kingRow, kingStartCol, kingRow, kingEndCol)
      requires intermediateKingCol == kingStartCol + Sign(kingEndCol - kingStartCol)
      requires InBounds(kingRow, intermediateKingCol)
      requires At(p.grid, kingRow, intermediateKingCol) == None && At(p.grid, kingRow, kingEndCol) == None
      requires squares[..] == KingStepped(p.grid, kingRow, kingStartCol, intermediateKingCol)
      requires State() == p.(grid := squares[..])
      modifies squares
      ensures squares[..] == p.grid
      ensures safe == !InCheck(p.(grid := KingStepped(KingStepped(p.grid, kingRow, kingStartCol, intermediateKingCol),
                                                     kingRow, intermediateKingCol, kingEndCol)), p.turn)
      decreases Occupied(p.grid), 0, 9, 2
    {
      var originalKing := squares[Index(kingRow, intermediateKingCol)];
      var rookStartCol := if kingEndCol == 6 then 7 else 0;
      var originalRook := squares[Index(kingRow, rookStartCol)];
      ghost var passing := squares[..];
      OccupiedRelocate(p.grid, Index(kingRow, kingStartCol), Index(kingRow, intermediateKingCol));
      OccupiedRelocate(passing, Index(kingRow, intermediateKingCol), Index(kingRow, kingEndCol));
      KingSteppedTwice(p.grid, kingRow, kingStartCol, intermediateKingCol, kingEndCol);
      KingStepUndone(p.grid, kingRow, kingStartCol, kingEndCol);

      safe := StepKingAndTest(kingRow, intermediateKingCol, kingEndCol, p);
      PutSquare(kingRow, kingStartCol, originalKing);
      PutSquare(kingRow, kingEndCol, None);
      assert squares[..] == p.grid;
      if safe {
        PutSquare(kingRow, rookStartCol, originalRook);
      }
    }

    /** One simulated king step of isValidCastlingAttempt: lift the king off (r, from), put it on (r, to), ask isKingInCheck. */
    method StepKingAndTest(r: int, from: int, to: int, ghost p: Position) returns (safe: bool)
      requires Valid() && InBounds(r, from) && InBounds(r, to)
      requires State() == p.(grid := squares[..])
      modifies squares
      ensures squares[..] == KingStepped(old(squares[..]), r, from, to)
      ensures safe == !InCheck(p.(grid := squares[..]), p.turn)
      decreases Occupied(squares[..]), 0, 9, 1
    {
      ghost var g := squares[..];
      var king := squares[Index(r, from)];
      PutSquare(r, from, None);
      PutSquare(r, to, king);
      OccupiedRelocate(g, Index(r, from), Index(r, to));
      var check := IsKingInCheck(currentPlayerTurn);
      return !check;
    }

    /** squares[r][c] = x. */
    method PutSquare(r: int, c: int, x: Square)
      requires Valid() && InBounds(r, c)
      modifies squares
      ensures squares[..] == old(squares[..])[Index(r, c) := x]
    {
      squares[Index(r, c)] := x;
    }

    /**
     * isValidMoveAttempt: the preliminary checks, then the move made on the array (with an en-passant
     * victim lifted), the check test, and every write undone.
     */
    method IsValidMoveAttempt(startRow: int, startCol: int, endRow: int, endCol: int) returns (ok: bool)
      requires Valid()
      modifies squares
      ensures squares[..] == old(squares[..])
      ensures ok == MoveAttempt(State(), startRow, startCol, endRow, endCol)
    {
      if startRow < 0 || startRow >= 8 || startCol < 0 || startCol >= 8 ||
         endRow < 0 || endRow >= 8 || endCol < 0 || endCol >= 8 {
        return false;
      }
      var pieceToMove := squares[Index(startRow, startCol)];
      if pieceToMove == None || pieceToMove.value.color != currentPlayerTurn {
        return false;
      }
      var targetPiece := squares[Index(endRow, endCol)];
      var isTargetEmpty := targetPiece == None;
      var isTargetOccupiedByOpponent := targetPiece != None && targetPiece.value.color != currentPlayerTurn;
      var isTargetOccupiedByOwn := targetPiece != None && targetPiece.value.color == currentPlayerTurn;
      if isTargetOccupiedByOwn && (startRow != endRow || startCol != endCol) {
        return false;
      }
      var geometric := IsValidPieceMove(startRow, startCol, endRow, endCol);
      if !geometric {
        return false;
      }
      if pieceToMove.value.kind == Pawn {
        if startCol == endCol {
          if !isTargetEmpty { return false; }
        } else {
          var isEnPassantCandidate := enPassantTargetSquare == Some(Pos(endRow, endCol));
          if isEnPassantCandidate {
            if pieceToMove.value.color == White && startRow != 3 { return false; }
            if pieceToMove.value.color == Black && startRow != 4 { return false; }
          } else {
            if !isTargetOccupiedByOpponent { return false; }
          }
        }
      }

      NoMoveInPlace(State(), startRow, startCol);
      ok := LeavesKingSafe(startRow, startCol, endRow, endCol);
    }

    /**
     * The self-check part of isValidMoveAttempt: make the move on the array (lifting an en-passant
     * victim), ask isKingInCheck for the side to move, and undo every write.
     */
    method LeavesKingSafe(startRow: int, startCol: int, endRow: int, endCol: int) returns (ok: bool)
      requires Valid() && InBounds(startRow, startCol) && InBounds(endRow, endCol)
      requires (startRow, startCol) != (endRow, endCol) && squares[Index(startRow, startCol)].Some?
      requires PawnStepOk(State(), startRow, startCol, endRow, endCol)
      modifies squares
      ensures squares[..] == old(squares[..])
      ensures ok == !InCheck(old(State()).(grid := Simulate(old(State()), startRow, startCol, endRow, endCol)), currentPlayerTurn)
    {
      ghost var p := State();
      var originalStartPiece := squares[Index(startRow, startCol)];
      var originalEndPiece := squares[Index(endRow, endCol)];
      var originalEnPassantCapturedPawn: Square := None;
      PutSquare(endRow, endCol, originalStartPiece);
      PutSquare(startRow, startCol, None);
      var capturedPawnRow := if originalStartPiece.value.color == White then endRow + 1 else endRow - 1;
      if originalStartPiece.value.kind == Pawn && Abs(startCol - endCol) == 1 && originalEndPiece == None &&
         enPassantTargetSquare == Some(Pos(endRow, endCol)) {
        EnPassantVictimRow(p, startRow, startCol, endRow, endCol);
        originalEnPassantCapturedPawn := squares[Index(capturedPawnRow, endCol)];
        PutSquare(capturedPawnRow, endCol, None);
      }
      assert squares[..] == Simulate(p, startRow, startCol, endRow, endCol);
      var isKingInCheckAfterMove := IsKingInCheck(currentPlayerTurn);

      SimulationUndone(p, startRow, startCol, endRow, endCol);
      PutSquare(startRow, startCol, originalStartPiece);
      PutSquare(endRow, endCol, originalEndPiece);
      if enPassantTargetSquare != None && originalEnPassantCapturedPawn != None {
        PutSquare(capturedPawnRow, endCol, originalEnPassantCapturedPawn);
      }
      return !isKingInCheckAfterMove;
    }

    /**
     * The candidate scan of parseAlgebraicNotation's piece-letter forms: in row-major order, every own
     * piece of type t whose square matches the hint and that can legally move to (endRow, endCol).
     */
    method CollectCandidates(t: PieceType, hint: Hint, endRow: int, endCol: int) returns (candidateSources: seq<Pos>)
      requires Valid()
      modifies squares
      ensures squares[..] == old(squares[..])
      ensures candidateSources == Candidates(old(State()), t, hint, endRow, endCol)
    {
      ghost var p := State();
      ghost var keep := CandidateTest(p, t, hint, endRow, endCol);
      ghost var all := Candidates(p, t, hint, endRow, endCol);
      candidateSources := [];
      assert candidateSources + SquaresFrom(keep, 0, 0) == all;
      var sr := 0;
      while sr < 8
        invariant 0 <= sr <= 8
        invariant squares[..] == p.grid
        invariant candidateSources + SquaresFrom(keep, sr, 0) == all
      {
        candidateSources := CollectCandidatesInRow(sr, t, hint, endRow, endCol, p, candidateSources);
        sr := sr + 1;
      }
      assert SquaresFrom(keep, 8, 0) == [];
      assert candidateSources + [] == candidateSources;
    }

    /** The inner loop of the candidate scan: the candidates on row sr, appended in column order. */
    method CollectCandidatesInRow(sr: int, t: PieceType, hint: Hint, endRow: int, endCol: int,
                                  ghost p: Position, before: seq<Pos>)
      returns (candidateSources: seq<Pos>)
      requires Valid() && 0 <= sr < 8 && p == State()
      modifies squares
      ensures squares[..] == old(squares[..])
      ensures candidateSources + SquaresFrom(CandidateTest(p, t, hint, endRow, endCol), sr + 1, 0) ==
        before + SquaresFrom(CandidateTest(p, t, hint, endRow, endCol), sr, 0)
    {
      ghost var keep := CandidateTest(p, t, hint, endRow, endCol);
      ghost var goal := before + SquaresFrom(keep, sr, 0);
      candidateSources := before;
      for sc := 0 to 8
        invariant squares[..] == p.grid
        invariant candidateSources + SquaresFrom(keep, sr, sc) == goal
      {
        CandidateScanStep(keep, candidateSources, sr, sc);
        var found := IsCandidateSquare(sr, sc, t, hint, endRow, endCol);
        assert found == keep(sr, sc);
        if found {
          candidateSources := candidateSources + [Pos(sr, sc)];
        }
      }
      ScanRowStep(keep, sr);
    }

    /** The test of the candidate scan on one square: an own piece of the type, matching the hint, that can legally move to the target. */
    method IsCandidateSquare(sr: int, sc: int, t: PieceType, hint: Hint, endRow: int, endCol: int) returns (found: bool)
      requires Valid() && InBounds(sr, sc)
      modifies squares
      ensures squares[..] == old(squares[..])
      ensures found == IsCandidate(old(State()), t, hint, endRow, endCol, sr, sc)
    {
      var piece := squares[Index(sr, sc)];
      found := false;
      if piece != None && piece.value.color == currentPlayerTurn && piece.value.kind == t && HintMatches(hint, sr, sc) {
        found := IsValidMoveAttempt(sr, sc, endRow, endCol);
      }
    }

    /** parseAlgebraicNotation: the coordinates a notation names in the current position, or nothing. */
    method ParseAlgebraicNotation(notation: string) returns (coords: Option<Coords>)
      requires Valid()
      modifies squares
      ensures squares[..] == old(squares[..])
      ensures coords == Parse(old(State()), notation)
    {
      if |notation| == 0 {
        return None;
      }
      if IsFullForm(notation) {
        var startCol := FileCol(notation[0]);
        var startRow := RankRow(notation[1]);
        var endCol := FileCol(notation[2]);
        var endRow := RankRow(notation[3]);
        return Some(Coords(startRow, startCol, endRow, endCol));
      }
      if IsFileForm(notation) || IsRankForm(notation) {
        var pieceChar, disambiguatorChar := notation[0], notation[1];
        var targetPieceType := LetterType(pieceChar);
        var endCol := FileCol(notation[2]);
        var endRow := RankRow(notation[3]);
        var hint := if IsFile(disambiguatorChar) then FileHint(FileCol(disambiguatorChar)) else RankHint(RankRow(disambiguatorChar));
        var candidateSources := CollectCandidates(targetPieceType, hint, endRow, endCol);
        if |candidateSources| == 0 {
          return None;
        } else if |candidateSources| > 1 {
          return None;
        }
        return Some(Coords(candidateSources[0].row, candidateSources[0].col, endRow, endCol));
      }
      if IsShortForm(notation) {
        var targetPieceType := LetterType(notation[0]);
        var endCol := FileCol(notation[1]);
        var endRow := RankRow(notation[2]);
        var candidateSources := CollectCandidates(targetPieceType, NoHint, endRow, endCol);
        if |candidateSources| == 0 {
          return None;
        } else if |candidateSources| > 1 {
          return None;
        }
        return Some(Coords(candidateSources[0].row, candidateSources[0].col, endRow, endCol));
      }
      return None;
    }

    /** move: the castling strings become a king move from its home square; anything else is parsed first. */
    method Move(moveNotation: string) returns (result: MoveResult)
      requires Valid()
      modifies this, squares
      ensures Valid() && squares == old(squares)
      ensures Outcome(result, State()) == MoveNotation(old(State()), moveNotation)
    {
      var isKingsideCastleNotation := IsKingsideCastle(moveNotation);
      var isQueensideCastleNotation := IsQueensideCastle(moveNotation);
      if isKingsideCastleNotation || isQueensideCastleNotation {
        var kingStartRow := if currentPlayerTurn == White then 7 else 0;
        var kingStartCol := 4;
        var kingEndCol := if isKingsideCastleNotation then 6 else 2;
        result := MovePiece(kingStartRow, kingStartCol, kingStartRow, kingEndCol);
        return;
      }
      var coords := ParseAlgebraicNotation(moveNotation);
      if coords == None {
        return Invalid;
      }
      result := MovePiece(coords.value.startRow, coords.value.startCol, coords.value.endRow, coords.value.endCol);
    }

    /** movePiece: the preliminary checks and isValidMoveAttempt; an accepted move is then carried out. */
    method MovePiece(startRow: int, startCol: int, endRow: int, endCol: int) returns (result: MoveResult)
      requires Valid()
      modifies this, squares
      ensures Valid() && squares == old(squares)
      ensures Outcome(result, State()) == Execution.MovePiece(old(State()), startRow, startCol, endRow, endCol)
    {
      if startRow < 0 || startRow >= 8 || startCol < 0 || startCol >= 8 ||
         endRow < 0 || endRow >= 8 || endCol < 0 || endCol >= 8 {
        return Invalid;
      }
      var pieceToMove := squares[Index(startRow, startCol)];
      if pieceToMove == None || pieceToMove.value.color != currentPlayerTurn {
        return Invalid;
      }
      var pieceAtEnd := squares[Index(endRow, endCol)];
      if pieceAtEnd != None && pieceAtEnd.value.color == currentPlayerTurn {
        return Invalid;
      }
      var legal := IsValidMoveAttempt(startRow, startCol, endRow, endCol);
      if !legal {
        return Invalid;
      }
      result := CarryOut(startRow, startCol, endRow, endCol);
    }

    /**
     * The writes of movePiece once the move is known to be legal: the capture (an en-passant victim
     * must be an opposing pawn), the move itself, the castling rook, the flags, the en-passant target
     * and the turn, which stays with the mover while a promotion is pending.
     */
    method CarryOut(startRow: int, startCol: int, endRow: int, endCol: int) returns (result: MoveResult)
      requires Valid() && InBounds(startRow, startCol) && InBounds(endRow, endCol)
      requires squares[Index(startRow, startCol)].Some? && squares[Index(startRow, startCol)].value.color == currentPlayerTurn
      requires squares[Index(endRow, endCol)].None? || squares[Index(endRow, endCol)].value.color != currentPlayerTurn
      requires MoveAttempt(State(), startRow, startCol, endRow, endCol)
      modifies this, squares
      ensures Valid() && squares == old(squares)
      ensures Outcome(result, State()) == Execution.MovePiece(old(State()), startRow, startCol, endRow, endCol)
    {
      ghost var p := State();
      var pieceToMove := squares[Index(startRow, startCol)].value;
      var pieceAtEnd := squares[Index(endRow, endCol)];
      if pieceToMove.kind == Pawn {
        PawnAttemptRules(p, startRow, startCol, endRow, endCol);
      }
      var isCastlingMove := pieceToMove.kind == King && Abs(startCol - endCol) == 2 && startRow == endRow;

      var isEnPassantCapture := false;
      var capturedPawnByEnPassant: Square := None;
      var capturedPawnByEnPassantRow, capturedPawnByEnPassantCol := -1, -1;
      if pieceToMove.kind == Pawn && Abs(startCol - endCol) == 1 {
        if squares[Index(endRow, endCol)] == None {
          if enPassantTargetSquare == Some(Pos(endRow, endCol)) {
            isEnPassantCapture := true;
            capturedPawnByEnPassantRow := if pieceToMove.color == White then endRow + 1 else endRow - 1;
            capturedPawnByEnPassantCol := endCol;
            capturedPawnByEnPassant := squares[Index(capturedPawnByEnPassantRow, capturedPawnByEnPassantCol)];
          }
        }
      }
      assert isEnPassantCapture == IsEnPassantCapture(p, startRow, startCol, endRow, endCol);

      if isEnPassantCapture {
        if capturedPawnByEnPassant != None && capturedPawnByEnPassant.value.kind == Pawn &&
           capturedPawnByEnPassant.value.color != pieceToMove.color {
          PutSquare(capturedPawnByEnPassantRow, capturedPawnByEnPassantCol, None);
          pieceCounts := Bump(pieceCounts, capturedPawnByEnPassant.value, -1);
        } else {
          return Invalid;
        }
      } else if pieceAtEnd != None {
        pieceCounts := Bump(pieceCounts, pieceAtEnd.value, -1);
      }
      result := FinishMove(startRow, startCol, endRow, endCol, pieceToMove);
    }

    /** The rest of movePiece once any capture is settled: Complete of the settled board and table. */
    method FinishMove(startRow: int, startCol: int, endRow: int, endCol: int, pieceToMove: Piece) returns (result: MoveResult)
      requires Valid() && InBounds(startRow, startCol) && InBounds(endRow, endCol)
      modifies this, squares
      ensures Valid() && squares == old(squares)
      ensures Outcome(result, State()) ==
        Complete(old(State()), pieceToMove, startRow, startCol, endRow, endCol, old(squares[..]), old(pieceCounts))
    {
      ghost var p := State();
      MoveOnBoard(startRow, startCol, endRow, endCol, pieceToMove);
      RecordMoved(pieceToMove, startRow, startCol);

      var isPromotion := false;
      if pieceToMove.kind == Pawn {
        if (pieceToMove.color == White && endRow == 0) || (pieceToMove.color == Black && endRow == 7) {
          isPromotion := true;
        }
      }

      var rowDiffFromStart := Abs(startRow - endRow);
      if pieceToMove.kind == Pawn && rowDiffFromStart == 2 {
        if pieceToMove.color == White {
          enPassantTargetSquare := Some(Pos(endRow + 1, endCol));
        } else {
          enPassantTargetSquare := Some(Pos(endRow - 1, endCol));
        }
      } else {
        enPassantTargetSquare := None;
      }

      if isPromotion {
        return PromotionPending;
      } else {
        SwitchTurn();
        return MoveResult.Valid;
      }
    }

    /** Step 3 of movePiece: the piece moved, and on castling the rook moved from its corner. */
    method MoveOnBoard(startRow: int, startCol: int, endRow: int, endCol: int, pieceToMove: Piece)
      requires Valid() && InBounds(startRow, startCol) && InBounds(endRow, endCol)
      modifies squares
      ensures var moved := old(squares[..])[Index(endRow, endCol) := Some(pieceToMove)][Index(startRow, startCol) := None];
        squares[..] == if IsCastlingMove(pieceToMove, startRow, startCol, endRow, endCol) then CastleRook(moved, endRow, endCol) else moved
    {
      var isCastlingMove := pieceToMove.kind == King && Abs(startCol - endCol) == 2 && startRow == endRow;
      PutSquare(endRow, endCol, Some(pieceToMove));
      PutSquare(startRow, startCol, None);
      if isCastlingMove {
        var rookStartCol, rookEndCol := if endCol == 6 then 7 else 0, if endCol == 6 then 5 else 3;
        var rook := squares[Index(endRow, rookStartCol)];
        PutSquare(endRow, rookEndCol, rook);
        PutSquare(endRow, rookStartCol, None);
      }
    }

    /** Step 4 of movePiece: a king's flag is set whenever it moves, a rook's when it leaves its corner. */
    method RecordMoved(pieceToMove: Piece, startRow: int, startCol: int)
      modifies this`whiteKingMoved, this`blackKingMoved, this`whiteRookAMoved, this`whiteRookHMoved
      modifies this`blackRookAMoved, this`blackRookHMoved
      ensures CastlingFlags() == UpdateFlags(old(CastlingFlags()), pieceToMove, startRow, startCol)
    {
      if pieceToMove.kind == King {
        if pieceToMove.color == White { whiteKingMoved := true; } else { blackKingMoved := true; }
      } else if pieceToMove.kind == Rook {
        if pieceToMove.color == White {
          if startCol == 0 && startRow == 7 { whiteRookAMoved := true; }
          if startCol == 7 && startRow == 7 { whiteRookHMoved := true; }
        } else {
          if startCol == 0 && startRow == 0 { blackRookAMoved := true; }
          if startCol == 7 && startRow == 0 { blackRookHMoved := true; }
        }
      }
    }

    /** finalizePromotion: a pawn on the square becomes the chosen piece and the turn passes; otherwise nothing happens. */
    method FinalizePromotion(promotionRow: int, promotionCol: int, chosenType: PieceType)
      requires Valid() && InBounds(promotionRow, promotionCol)
      modifies this, squares
      ensures Valid() && squares == old(squares)
      ensures State() == Execution.FinalizePromotion(old(State()), promotionRow, promotionCol, chosenType)
    {
      var promotingPawn := squares[Index(promotionRow, promotionCol)];
      if promotingPawn == None || promotingPawn.value.kind != Pawn {
        return;
      }
      pieceCounts := Bump(pieceCounts, Piece(Pawn, promotingPawn.value.color), -1);
      PutSquare(promotionRow, promotionCol, Some(Piece(chosenType, promotingPawn.value.color)));
      pieceCounts := Bump(pieceCounts, Piece(chosenType, promotingPawn.value.color), 1);
      SwitchTurn();
    }

    /**
     * findRandomLegalMove: every move isValidMoveAttempt accepts, in row-major order of start and then
     * end square, rendered as findRandomLegalMove writes it; the random draw is the index choice taken
     * modulo the number of moves. No legal move, no result.
     */
    method FindRandomLegalMove(choice: nat) returns (move: Option<string>)
      requires Valid()
      modifies squares
      ensures squares[..] == old(squares[..])
      ensures var moves := LegalMoves(old(State()));
        move == if moves == [] then None else Some(moves[choice % |moves|])
    {
      ghost var p := State();
      ghost var legal := Legal(p);
      ghost var moves := LegalMoves(p);
      var legalMoves: seq<string> := [];
      assert legalMoves + Renders(p, MovesFrom(legal, 0, 0, 0, 0)) == moves;
      for startRow := 0 to 8
        invariant squares[..] == p.grid
        invariant legalMoves + Renders(p, MovesFrom(legal, startRow, 0, 0, 0)) == moves
      {
        for startCol := 0 to 8
          invariant squares[..] == p.grid
          invariant legalMoves + Renders(p, MovesFrom(legal, startRow, startCol, 0, 0)) == moves
        {
          var piece := squares[Index(startRow, startCol)];
          if piece != None && piece.value.color == currentPlayerTurn {
            legalMoves := CollectMovesFrom(startRow, startCol, legalMoves);
          } else {
            NoMovesFromForeignSquare(p, startRow, startCol);
            MovesFromSkipSquare(legal, startRow, startCol, 0, 0);
          }
        }
        MovesFromSkip(legal, startRow, 8, 0, 0);
      }
      assert Renders(p, MovesFrom(legal, 8, 0, 0, 0)) == [];
      assert legalMoves == moves;
      if legalMoves == [] {
        return None;
      }
      return Some(legalMoves[choice % |legalMoves|]);
    }

    /** The two inner loops of findRandomLegalMove: the moves from one start square, appended in end-square order. */
    method CollectMovesFrom(startRow: int, startCol: int, before: seq<string>) returns (legalMoves: seq<string>)
      requires Valid() && InBounds(startRow, startCol) && squares[Index(startRow, startCol)].Some?
      modifies squares
      ensures squares[..] == old(squares[..])
      ensures legalMoves + Renders(old(State()), MovesFrom(Legal(old(State())), startRow, startCol + 1, 0, 0)) ==
        before + Renders(old(State()), MovesFrom(Legal(old(State())), startRow, startCol, 0, 0))
    {
      ghost var p := State();
      ghost var legal := Legal(p);
      ghost var goal := before + Renders(p, MovesFrom(legal, startRow, startCol, 0, 0));
      legalMoves := before;
      var endRow := 0;
      while endRow < 8
        invariant 0 <= endRow <= 8
        invariant squares[..] == p.grid
        invariant legalMoves + Renders(p, MovesFrom(legal, startRow, startCol, endRow, 0)) == goal
      {
        legalMoves := CollectMovesTo(startRow, startCol, endRow, p, legalMoves);
        endRow := endRow + 1;
      }
      MovesFromSkip(legal, startRow, startCol, 8, 0);
    }

    /** The innermost loop of findRandomLegalMove: the moves from one start square to row endRow, in column order. */
    method CollectMovesTo(startRow: int, startCol: int, endRow: int, ghost p: Position, before: seq<string>)
      returns (legalMoves: seq<string>)
      requires Valid() && InBounds(startRow, startCol) && 0 <= endRow < 8 && p == State()
      requires squares[Index(startRow, startCol)].Some?
      modifies squares
      ensures squares[..] == old(squares[..])
      ensures legalMoves + Renders(p, MovesFrom(Legal(p), startRow, startCol, endRow + 1, 0)) ==
        before + Renders(p, MovesFrom(Legal(p), startRow, startCol, endRow, 0))
    {
      ghost var legal := Legal(p);
      ghost var goal := before + Renders(p, MovesFrom(legal, startRow, startCol, endRow, 0));
      var piece := squares[Index(startRow, startCol)];
      legalMoves := before;
      var endCol := 0;
      while endCol < 8
        invariant 0 <= endCol <= 8
        invariant squares[..] == p.grid
        invariant legalMoves + Renders(p, MovesFrom(legal, startRow, startCol, endRow, endCol)) == goal
      {
        var m: BoardMove := Coords(startRow, startCol, endRow, endCol);
        EnumerationStep(p, legal, legalMoves, startRow, startCol, endRow, endCol);
        var ok := IsValidMoveAttempt(startRow, startCol, endRow, endCol);
        if ok {
          var text: string;
          if piece.value.kind == King && Abs(startCol - endCol) == 2 && startRow == endRow {
            text := if endCol == 6 then "O-O" else "O-O-O";
          } else {
            text := [FileChar(startCol), RankChar(startRow), FileChar(endCol), RankChar(endRow)];
          }
          assert text == Render(p, m);
          legalMoves := legalMoves + [text];
        }
        endCol := endCol + 1;
      }
      MovesFromSkip(legal, startRow, startCol, endRow, 8);
    }
  }
}
