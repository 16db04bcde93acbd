/**
 * Concrete positions: the opening pawn move of BoardTest.java played from the starting position,
 * the off-home "castling" that isValidCastlingAttempt lets through as written, and a castling on
 * the far back rank that findRandomLegalMove lists as "O-O" but move("O-O") cannot replay.
 */
module Scenarios {
  import opened Util
  import opened Pieces
  import opened Positions
  import opened Rules
  import opened RulesLemmas
  import opened Execution
  import opened Setup
  import opened Notation
  import opened NotationLemmas

  /** The starting board with the e-pawn on e4: the board isValidMoveAttempt tests for self-check. */
  function AfterE2E4(): Grid
  {
    InitialGrid()[Index(4, 4) := Some(Piece(Pawn, White))][Index(6, 4) := None]
  }

  lemma AfterE2E4Squares(r: int, c: int)
    requires InBounds(r, c)
    ensures At(AfterE2E4(), r, c) ==
      if (r, c) == (4, 4) then Some(Piece(Pawn, White))
      else if (r, c) == (6, 4) then None
      else InitialSquare(r, c)
  {
  }

  /** After e2e4 the white king still stands on e1, and it is the first white king of the scan. */
  lemma AfterE2E4King()
    ensures FindKing(AfterE2E4(), White) == Some(Pos(7, 4))
  {
    var g := AfterE2E4();
    AfterE2E4Squares(7, 4);
    forall rr, cc | InBounds(rr, cc) && !NotBefore(rr, cc, 7, 4) ensures At(g, rr, cc) != Some(Piece(King, White)) {
      AfterE2E4Squares(rr, cc);
    }
    FindKingFirst(g, White, 7, 4);
  }

  /** No black piece of the starting array reaches e1. */
  lemma AfterE2E4NoAttack(p: Position, r: int, c: int)
    requires p.grid == AfterE2E4() && InBounds(r, c)
    ensures !Attacks(p, White, Pos(7, 4), r, c)
  {
    AfterE2E4Squares(r, c);
    if r == 0 {
      var lifted := p.(grid := p.grid[Index(7, 4) := None]);
      assert At(lifted.grid, r, c) == Some(Piece(BackRankType(c), Black));
      assert Abs(7 - r) == 7 && Abs(4 - c) <= 4;
    }
  }

  /** The e-pawn's double step from the starting array leaves the white king out of check. */
  lemma AfterE2E4Safe(p: Position)
    requires p.grid == AfterE2E4()
    ensures !InCheck(p, White)
  {
    AfterE2E4King();
    InCheckIff(p, White);
    forall r, c | InBounds(r, c) ensures !Attacks(p, White, Pos(7, 4), r, c) {
      AfterE2E4NoAttack(p, r, c);
    }
  }

  /**
   * move("e2e4") on a new board is VALID: e2 is empty afterwards, e4 holds a white pawn and Black is
   * to move.
   */
  lemma InitialPawnMove()
    ensures var o := MoveNotation(InitialPosition(), "e2e4");
      o.result == Valid && At(o.next.grid, 6, 4) == None &&
      At(o.next.grid, 4, 4) == Some(Piece(Pawn, White)) && o.next.turn == Black
  {
    var p := InitialPosition();
    assert IsFullForm("e2e4");
    assert Parse(p, "e2e4") == Some(Coords(6, 4, 4, 4));
    assert At(p.grid, 6, 4) == Some(Piece(Pawn, White));
    assert At(p.grid, 5, 4) == None && At(p.grid, 4, 4) == None;
    assert PieceMove(p, 6, 4, 4, 4);
    assert Simulate(p, 6, 4, 4, 4) == AfterE2E4();
    AfterE2E4Safe(p.(grid := AfterE2E4()));
    MoveAttemptComplete(p, 6, 4, 4, 4);
  }

  /**
   * The guard of isValidCastlingAttempt as written lets a king on b1 "castle" to d1; movePiece then
   * moves the a1 rook to d1, on top of the king, and White has one king fewer. With the home-file test
   * the guard refuses the move.
   */
  lemma OffHomeCastlingLosesKing(p: Position)
    requires At(p.grid, 7, 1) == Some(Piece(King, White)) && At(p.grid, 7, 0) == Some(Piece(Rook, White))
    requires At(p.grid, 7, 3) == None
    ensures CastlingGuardAsWritten(7, 1, 7, 3) && !CastlingGuard(7, 1, 7, 3)
    ensures var after := Complete(p, Piece(King, White), 7, 1, 7, 3, p.grid, p.counts).next.grid;
      At(after, 7, 3) == Some(Piece(Rook, White)) &&
      CountOf(after, Piece(King, White)) == CountOf(p.grid, Piece(King, White)) - 1
  {
    var king := Piece(King, White);
    var g0 := p.grid;
    var g1 := g0[Index(7, 3) := Some(king)];
    var g2 := g1[Index(7, 1) := None];
    var g3 := g2[Index(7, 3) := At(g2, 7, 0)];
    var g4 := g3[Index(7, 0) := None];
    assert Complete(p, king, 7, 1, 7, 3, g0, p.counts).next.grid == g4;
    CountOfUpdate(g0, Index(7, 3), Some(king), king);
    CountOfUpdate(g1, Index(7, 1), None, king);
    CountOfUpdate(g2, Index(7, 3), At(g2, 7, 0), king);
    CountOfUpdate(g3, Index(7, 0), None, king);
  }

  /** With the home-file test, the castling rook lands on the square the king passes, never on the king. */
  lemma CastlingRookBesideKing(ksr: int, ksc: int, ker: int, kec: int)
    requires CastlingGuard(ksr, ksc, ker, kec)
    ensures RookTargetCol(kec) == ksc + Sign(kec - ksc) && RookTargetCol(kec) != kec
  {
  }

  /**
   * A set-up board (clearBoard, then placePiece "Kxy" and so on): White's king on column c of row 0
   * (rank 8), White's rook on h8 and Black's king on a1.
   */
  function FarRankGrid(c: int): Grid
    requires 0 <= c < 7
  {
    EmptyGrid()[Index(7, 0) := Some(Piece(King, Black))][Index(0, 7) := Some(Piece(Rook, White))][Index(0, c) := Some(Piece(King, White))]
  }

  lemma FarRankSquares(c: int, r: int, cc: int)
    requires 0 <= c < 7 && InBounds(r, cc)
    ensures At(FarRankGrid(c), r, cc) ==
      if (r, cc) == (0, c) then Some(Piece(King, White))
      else if (r, cc) == (0, 7) then Some(Piece(Rook, White))
      else if (r, cc) == (7, 0) then Some(Piece(King, Black))
      else None
  {
  }

  /** On such a board the white king is never in check: Black's only piece is a king far away. */
  lemma FarRankSafe(q: Position, c: int)
    requires 0 <= c < 7 && q.grid == FarRankGrid(c)
    ensures !InCheck(q, White)
  {
    FarRankSquares(c, 0, c);
    forall rr, cc | InBounds(rr, cc) && !NotBefore(rr, cc, 0, c) ensures At(q.grid, rr, cc) != Some(Piece(King, White)) {
      FarRankSquares(c, rr, cc);
    }
    FindKingFirst(q.grid, White, 0, c);
    InCheckIff(q, White);
    forall r, cc | InBounds(r, cc) ensures !Attacks(q, White, Pos(0, c), r, cc) {
      FarRankSquares(c, r, cc);
      if (r, cc) == (7, 0) {
        var lifted := q.grid[Index(0, c) := None];
        assert At(lifted, 7, 0) == Some(Piece(King, Black));
      }
    }
  }

  /** One king step along row 0 gives the board with the king one column further. */
  lemma FarRankStep(c: int)
    requires 0 <= c < 6
    ensures KingStepped(FarRankGrid(c), 0, c, c + 1) == FarRankGrid(c + 1)
  {
    var lhs, rhs := KingStepped(FarRankGrid(c), 0, c, c + 1), FarRankGrid(c + 1);
    forall i | 0 <= i < 64 ensures lhs[i] == rhs[i] {
    }
  }

  /** The squares between e8 and h8 are empty. */
  lemma FarRankPathClear(g: Grid)
    requires g == FarRankGrid(4)
    ensures PathClear(g, 0, 4, 0, 7)
  {
    FarRankSquares(4, 0, 5);
    FarRankSquares(4, 0, 6);
    assert StepSquare(g, 0, 4, 0, 7, 1) == At(g, 0, 5);
    assert StepSquare(g, 0, 4, 0, 7, 2) == At(g, 0, 6);
  }

  /** The king is safe on f8 and on g8. */
  lemma FarRankSafePassage(p: Position)
    requires p.grid == FarRankGrid(4) && p.turn == White
    ensures SafePassage(p, 0, 4, 6)
  {
    FarRankStep(4);
    FarRankStep(5);
    FarRankSafe(p.(grid := FarRankGrid(5)), 5);
    FarRankSafe(p.(grid := FarRankGrid(6)), 6);
    SafePassageLanding(p, 0, 4, 6);
  }

  /** White's king on e8 may castle to g8: isValidCastlingAttempt accepts it. */
  lemma FarRankCastling(p: Position)
    requires p.grid == FarRankGrid(4) && p.turn == White && p.flags == NothingMoved
    ensures Castling(p, 0, 4, 0, 6)
  {
    FarRankSquares(4, 0, 7);
    FarRankPathClear(p.grid);
    FarRankSafe(p, 4);
    FarRankSafePassage(p);
  }

  /** e8g8 passes isValidMoveAttempt. */
  lemma FarRankCastleLegal(p: Position)
    requires p.grid == FarRankGrid(4) && p.turn == White && p.flags == NothingMoved
    ensures MoveAttempt(p, 0, 4, 0, 6)
  {
    FarRankSquares(4, 0, 4);
    FarRankSquares(4, 0, 6);
    FarRankCastling(p);
    assert PieceMove(p, 0, 4, 0, 6);
    FarRankStep(4);
    FarRankStep(5);
    KingSteppedTwice(p.grid, 0, 4, 5, 6);
    assert Simulate(p, 0, 4, 0, 6) == KingStepped(p.grid, 0, 4, 6);
    FarRankSafe(p.(grid := FarRankGrid(6)), 6);
    MoveAttemptComplete(p, 0, 4, 0, 6);
  }

  /**
   * The castling test accepts row 0 for White, so with White's king on e8 and rook on h8 e8g8 is
   * legal and listed as "O-O"; move("O-O") starts from e1, which is empty, and returns INVALID.
   */
  lemma FarRankCastleListed(p: Position)
    requires p.grid == FarRankGrid(4) && p.turn == White && p.flags == NothingMoved
    ensures MoveAttempt(p, 0, 4, 0, 6)
    ensures Render(p, Coords(0, 4, 0, 6)) == "O-O" && "O-O" in LegalMoves(p)
    ensures MoveNotation(p, "O-O") == Outcome(Invalid, p)
  {
    FarRankSquares(4, 0, 4);
    FarRankSquares(4, 7, 4);
    FarRankCastleLegal(p);
    var m: BoardMove := Coords(0, 4, 0, 6);
    assert Render(p, m) == "O-O";
    LegalMovesIff(p, "O-O");
    MoveNotationCastle(p, "O-O");
  }

  /** White king d1, white rook a1, black king b1. */
  function ConsultGrid(): Grid
  {
    EmptyGrid()[Index(7, 0) := Some(Piece(Rook, White))][Index(7, 1) := Some(Piece(King, Black))][Index(7, 3) := Some(Piece(King, White))]
  }

  lemma ConsultSquares(r: int, cc: int)
    requires InBounds(r, cc)
    ensures At(ConsultGrid(), r, cc) ==
      if (r, cc) == (7, 3) then Some(Piece(King, White))
      else if (r, cc) == (7, 1) then Some(Piece(King, Black))
      else if (r, cc) == (7, 0) then Some(Piece(Rook, White))
      else None
  {
  }

  /** With no white king on the board, isKingInCheck(WHITE) finds none and reports no check. */
  lemma NoWhiteKingNoCheck(q: Position)
    requires forall r, c :: InBounds(r, c) ==> At(q.grid, r, c) != Some(Piece(King, White))
    ensures !InCheck(q, White)
  {
    FindKingIff(q.grid, White);
  }

  /**
   * While isKingInCheck(WHITE) has lifted the white king off d1, the Java castling test, with its
   * guard as written, accepts the black king's b1d1: White's rook stands on a1, nothing has moved,
   * and every nested check test finds no white king.
   */
  lemma OffHomeConsultAsWritten(p: Position)
    requires p.grid == ConsultGrid() && p.turn == White && p.flags == NothingMoved
    ensures var lifted := p.grid[Index(7, 3) := None];
      var passing := KingStepped(lifted, 7, 1, 2);
      CastlingGuardAsWritten(7, 1, 7, 3) && !KingMoved(p.flags, White) &&
      At(lifted, 7, RookStartCol(3)) == Some(Piece(Rook, White)) && !RookMoved(p.flags, White, false) &&
      !InCheck(p.(grid := lifted), White) && PathClear(lifted, 7, 1, 7, 0) &&
      !InCheck(p.(grid := passing), White) && !InCheck(p.(grid := KingStepped(passing, 7, 2, 3)), White)
  {
    var lifted := p.grid[Index(7, 3) := None];
    var passing := KingStepped(lifted, 7, 1, 2);
    var landing := KingStepped(passing, 7, 2, 3);
    forall r, c | InBounds(r, c)
      ensures At(lifted, r, c) != Some(Piece(King, White)) && At(passing, r, c) != Some(Piece(King, White)) &&
        At(landing, r, c) != Some(Piece(King, White))
    {
      ConsultSquares(r, c);
    }
    ConsultSquares(7, 0);
    NoWhiteKingNoCheck(p.(grid := lifted));
    NoWhiteKingNoCheck(p.(grid := passing));
    NoWhiteKingNoCheck(p.(grid := landing));
    PathClearIff(lifted, 7, 1, 7, 0);
  }

  /**
   * The model's check test, which consults the castling test with the home-file guard, finds the
   * black king's b1d1 rejected and reports White not in check on this board.
   */
  lemma OffHomeConsultNoCheck(p: Position)
    requires p.grid == ConsultGrid() && p.turn == White && p.flags == NothingMoved
    ensures !CastlingGuard(7, 1, 7, 3) && !PieceMove(p.(grid := p.grid[Index(7, 3) := None]), 7, 1, 7, 3)
    ensures !InCheck(p, White)
  {
    ConsultSquares(7, 3);
    forall rr, cc | InBounds(rr, cc) && !NotBefore(rr, cc, 7, 3) ensures At(p.grid, rr, cc) != Some(Piece(King, White)) {
      ConsultSquares(rr, cc);
    }
    FindKingFirst(p.grid, White, 7, 3);
    InCheckIff(p, White);
    var lifted := p.grid[Index(7, 3) := None];
    ConsultSquares(7, 1);
    assert At(lifted, 7, 1) == Some(Piece(King, Black));
    assert !Castling(p.(grid := lifted), 7, 1, 7, 3);
    forall r, cc | InBounds(r, cc) ensures !Attacks(p, White, Pos(7, 3), r, cc) {
      ConsultSquares(r, cc);
    }
  }
}
