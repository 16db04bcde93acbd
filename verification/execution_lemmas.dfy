/**
 * What movePiece and finalizePromotion guarantee: INVALID changes nothing, turns alternate except
 * while a promotion is pending, an executed move is the board its legality test checked for
 * self-check, en passant and castling move the right pieces, flags only ever get set, and the
 * piece-count table keeps agreeing with the board.
 */
module ExecutionLemmas {
  import opened Util
  import opened Pieces
  import opened Positions
  import opened Rules
  import opened RulesLemmas
  import opened Execution

  /** movePiece executed the move (did not return INVALID). */
  predicate Executed(p: Position, sr: int, sc: int, er: int, ec: int)
  {
    MovePiece(p, sr, sc, er, ec).result != Invalid
  }

  /**
   * The shape of an executed move: the mover is the side to move's piece, and the result is Complete
   * applied to the board with any en-passant victim (the opponent pawn beside the mover) removed and
   * the captured piece's count decremented.
   */
  lemma ExecutedShape(p: Position, sr: int, sc: int, er: int, ec: int) returns (mover: Piece, g: Grid, counts: map<Piece, int>)
    requires Executed(p, sr, sc, er, ec)
    ensures InBounds(sr, sc) && InBounds(er, ec) && (sr != er || sc != ec)
    ensures At(p.grid, sr, sc) == Some(mover) && mover.color == p.turn && MoveAttempt(p, sr, sc, er, ec)
    ensures MovePiece(p, sr, sc, er, ec) == Complete(p, mover, sr, sc, er, ec, g, counts)
    ensures IsEnPassantCapture(p, sr, sc, er, ec) ==>
      mover.kind == Pawn && BehindRow(p.turn, er) == sr && Abs(ec - sc) == 1 && At(p.grid, er, ec) == None &&
      At(p.grid, sr, ec) == Some(Piece(Pawn, Opponent(p.turn))) &&
      g == p.grid[Index(sr, ec) := None] && counts == Bump(p.counts, Piece(Pawn, Opponent(p.turn)), -1)
    ensures !IsEnPassantCapture(p, sr, sc, er, ec) ==>
      g == p.grid && counts == (if At(p.grid, er, ec).Some? then Bump(p.counts, At(p.grid, er, ec).value, -1) else p.counts)
  {
    MoveAttemptSound(p, sr, sc, er, ec);
    mover := At(p.grid, sr, sc).value;
    if IsEnPassantCapture(p, sr, sc, er, ec) {
      PawnAttemptRules(p, sr, sc, er, ec);
      g := p.grid[Index(sr, ec) := None];
      counts := Bump(p.counts, At(p.grid, sr, ec).value, -1);
    } else {
      g := p.grid;
      counts := if At(p.grid, er, ec).Some? then Bump(p.counts, At(p.grid, er, ec).value, -1) else p.counts;
    }
  }

  /**
   * movePiece executes exactly the moves isValidMoveAttempt accepts, except an en-passant capture
   * whose victim square (beside the mover) does not hold an opponent pawn; every other call leaves
   * the position exactly as it was.
   */
  lemma ExecutedIffLegal(p: Position, sr: int, sc: int, er: int, ec: int)
    ensures Executed(p, sr, sc, er, ec) ==> MoveAttempt(p, sr, sc, er, ec)
    ensures !Executed(p, sr, sc, er, ec) ==> MovePiece(p, sr, sc, er, ec).next == p
    ensures MoveAttempt(p, sr, sc, er, ec) && !IsEnPassantCapture(p, sr, sc, er, ec) ==> Executed(p, sr, sc, er, ec)
    ensures Executed(p, sr, sc, er, ec) <==>
      InBounds(sr, sc) && InBounds(er, ec) && MoveAttempt(p, sr, sc, er, ec) &&
      (IsEnPassantCapture(p, sr, sc, er, ec) ==> At(p.grid, sr, ec) == Some(Piece(Pawn, Opponent(p.turn))))
  {
    if MoveAttempt(p, sr, sc, er, ec) {
      MoveAttemptSound(p, sr, sc, er, ec);
      if IsEnPassantCapture(p, sr, sc, er, ec) {
        PawnAttemptRules(p, sr, sc, er, ec);
      }
    }
  }

  /**
   * VALID passes the turn; PROMOTION_PENDING keeps it and leaves the mover's pawn on its last row;
   * INVALID keeps the whole position.
   */
  lemma TurnAlternation(p: Position, sr: int, sc: int, er: int, ec: int)
    ensures var o := MovePiece(p, sr, sc, er, ec);
      (o.result == Valid ==> o.next.turn == Opponent(p.turn)) &&
      (o.result == Invalid ==> o.next == p) &&
      (o.result == PromotionPending ==>
         o.next.turn == p.turn && InBounds(er, ec) && er == LastRow(p.turn) &&
         At(o.next.grid, er, ec) == Some(Piece(Pawn, p.turn)))
  {
    if Executed(p, sr, sc, er, ec) {
      MoveAttemptSound(p, sr, sc, er, ec);
      if IsEnPassantCapture(p, sr, sc, er, ec) {
        PawnAttemptRules(p, sr, sc, er, ec);
      }
    }
  }

  /**
   * Apart from castling's rook, the board movePiece leaves is exactly the board isValidMoveAttempt
   * simulated, so the mover's own king is not in check on it.
   */
  lemma MoveMatchesSimulation(p: Position, sr: int, sc: int, er: int, ec: int)
    requires InBounds(sr, sc) && InBounds(er, ec) && At(p.grid, sr, sc).Some?
    requires Executed(p, sr, sc, er, ec) && !IsCastlingMove(At(p.grid, sr, sc).value, sr, sc, er, ec)
    ensures MovePiece(p, sr, sc, er, ec).next.grid == Simulate(p, sr, sc, er, ec)
    ensures !InCheck(p.(grid := MovePiece(p, sr, sc, er, ec).next.grid), p.turn)
  {
    MoveAttemptSound(p, sr, sc, er, ec);
    if IsEnPassantCapture(p, sr, sc, er, ec) {
      PawnAttemptRules(p, sr, sc, er, ec);
      var lhs, rhs := MovePiece(p, sr, sc, er, ec).next.grid, Simulate(p, sr, sc, er, ec);
      forall i | 0 <= i < 64 ensures lhs[i] == rhs[i] {
      }
    }
  }

  /**
   * A pawn's two-row step leaves the square it skipped (empty, one row ahead of its start) as the
   * en-passant target; every other executed move clears the target.
   */
  lemma EnPassantTargetAfterMove(p: Position, sr: int, sc: int, er: int, ec: int)
    requires InBounds(sr, sc) && InBounds(er, ec) && At(p.grid, sr, sc).Some?
    requires Executed(p, sr, sc, er, ec)
    ensures var m := At(p.grid, sr, sc).value; var ep := MovePiece(p, sr, sc, er, ec).next.ep;
      if m.kind == Pawn && Abs(er - sr) == 2 then
        ec == sc && sr == PawnHomeRow(m.color) && ep == Some(Pos(sr + Forward(m.color), sc)) &&
        At(p.grid, sr + Forward(m.color), sc) == None
      else
        ep == None
  {
    var mover, g, counts := ExecutedShape(p, sr, sc, er, ec);
    assert MovePiece(p, sr, sc, er, ec).next.ep == NextEnPassant(mover, sr, er, ec);
    if mover.kind == Pawn && Abs(er - sr) == 2 {
      MoveAttemptSound(p, sr, sc, er, ec);
      PawnMoveIff(p, sr, sc, er, ec);
      assert er - sr == 2 * Forward(mover.color);
      assert BehindRow(mover.color, er) == sr + Forward(mover.color);
    }
  }

  /**
   * An executed en-passant capture takes the opponent pawn standing beside the mover's start
   * (row endRow + 1 for white, endRow - 1 for black) and moves the capturing pawn diagonally.
   */
  lemma EnPassantCaptureExecution(p: Position, sr: int, sc: int, er: int, ec: int)
    requires InBounds(sr, sc) && InBounds(er, ec)
    requires IsEnPassantCapture(p, sr, sc, er, ec) && Executed(p, sr, sc, er, ec)
    ensures BehindRow(p.turn, er) == sr
    ensures At(p.grid, sr, ec) == Some(Piece(Pawn, Opponent(p.turn)))
    ensures var g := MovePiece(p, sr, sc, er, ec).next.grid;
      At(g, sr, ec) == None && At(g, sr, sc) == None && At(g, er, ec) == At(p.grid, sr, sc) &&
      forall r, c :: InBounds(r, c) && Index(r, c) !in {Index(sr, sc), Index(er, ec), Index(sr, ec)} ==>
        At(g, r, c) == At(p.grid, r, c)
  {
    var mover, g, counts := ExecutedShape(p, sr, sc, er, ec);
    var after := MovePiece(p, sr, sc, er, ec).next.grid;
    assert after == p.grid[Index(sr, ec) := None][Index(er, ec) := Some(mover)][Index(sr, sc) := None];
  }

  /** A king move that passes the attempt and moves two columns is a castling accepted by Castling. */
  lemma CastlingMoveAccepted(p: Position, sr: int, sc: int, er: int, ec: int)
    requires InBounds(sr, sc) && InBounds(er, ec) && At(p.grid, sr, sc).Some?
    requires MoveAttempt(p, sr, sc, er, ec) && IsCastlingMove(At(p.grid, sr, sc).value, sr, sc, er, ec)
    ensures (sr == 0 || sr == 7) && sc == 4 && (ec == 2 || ec == 6)
    ensures At(p.grid, sr, RookStartCol(ec)) == Some(Piece(Rook, p.turn))
    ensures At(p.grid, sr, RookTargetCol(ec)) == None && At(p.grid, er, ec) == None
    ensures Castling(p, sr, sc, er, ec) && At(p.grid, sr, sc) == Some(Piece(King, p.turn))
  {
    MoveAttemptSound(p, sr, sc, er, ec);
    KingMoveIff(p, sr, sc, er, ec);
    CastlingIff(p, sr, sc, er, ec);
    CastlingSquaresEmpty(p, sr, sc, er, ec);
  }

  /**
   * Executed castling: the king lands two columns over, the rook goes from its corner to the square
   * the king passed over (h to f, a to d), and no other square changes.
   */
  lemma CastlingExecution(p: Position, sr: int, sc: int, er: int, ec: int)
    requires InBounds(sr, sc) && InBounds(er, ec) && At(p.grid, sr, sc).Some?
    requires Executed(p, sr, sc, er, ec) && IsCastlingMove(At(p.grid, sr, sc).value, sr, sc, er, ec)
    ensures (sr == 0 || sr == 7) && sc == 4 && (ec == 2 || ec == 6) && RookTargetCol(ec) == (sc + ec) / 2
    ensures var g := MovePiece(p, sr, sc, er, ec).next.grid;
      At(g, er, ec) == Some(Piece(King, p.turn)) && At(g, sr, sc) == None &&
      At(g, er, RookTargetCol(ec)) == Some(Piece(Rook, p.turn)) && At(g, er, RookStartCol(ec)) == None &&
      forall r, c :: InBounds(r, c) && (r != er || (c != sc && c != ec && c != RookStartCol(ec) && c != RookTargetCol(ec))) ==>
        At(g, r, c) == At(p.grid, r, c)
  {
    var mover, g, counts := ExecutedShape(p, sr, sc, er, ec);
    CastlingMoveAccepted(p, sr, sc, er, ec);
    var moved := p.grid[Index(er, ec) := Some(mover)][Index(sr, sc) := None];
    assert MovePiece(p, sr, sc, er, ec).next.grid == CastleRook(moved, er, ec);
    CastledSquares(p.grid, mover, er, ec);
  }

  /** The squares of a row after the king jumps from column 4 to kec and the rook moves beside it. */
  lemma CastledSquares(g: Grid, king: Piece, r: int, kec: int)
    requires 0 <= r < 8 && (kec == 2 || kec == 6)
    ensures var after := CastleRook(g[Index(r, kec) := Some(king)][Index(r, 4) := None], r, kec);
      At(after, r, kec) == Some(king) && At(after, r, 4) == None &&
      At(after, r, RookTargetCol(kec)) == At(g, r, RookStartCol(kec)) && At(after, r, RookStartCol(kec)) == None &&
      forall rr, cc :: InBounds(rr, cc) && (rr != r || (cc != 4 && cc != kec && cc != RookStartCol(kec) && cc != RookTargetCol(kec))) ==>
        At(after, rr, cc) == At(g, rr, cc)
  {
    var after := CastleRook(g[Index(r, kec) := Some(king)][Index(r, 4) := None], r, kec);
    forall rr, cc | InBounds(rr, cc) && (rr != r || (cc != 4 && cc != kec && cc != RookStartCol(kec) && cc != RookTargetCol(kec)))
      ensures At(after, rr, cc) == At(g, rr, cc)
    {
      assert Index(rr, cc) != Index(r, 4) && Index(rr, cc) != Index(r, kec);
      assert Index(rr, cc) != Index(r, RookStartCol(kec)) && Index(rr, cc) != Index(r, RookTargetCol(kec));
    }
  }

  /**
   * Castling never leaves the mover's king in check: the landing board isValidCastlingAttempt tests
   * differs from the board after the move only by the rook, which leaves a corner (no line runs
   * through a corner to another square) and lands on the square the king passed (which only blocks).
   * The king must be the only king of its colour, since isKingInCheck examines the first one it finds.
   */
  lemma CastledKingSafe(p: Position, sr: int, sc: int, er: int, ec: int)
    requires InBounds(sr, sc) && InBounds(er, ec) && At(p.grid, sr, sc).Some?
    requires Executed(p, sr, sc, er, ec) && IsCastlingMove(At(p.grid, sr, sc).value, sr, sc, er, ec)
    requires forall r, c :: InBounds(r, c) && At(p.grid, r, c) == Some(Piece(King, p.turn)) ==> r == sr && c == sc
    ensures !InCheck(p.(grid := MovePiece(p, sr, sc, er, ec).next.grid), p.turn)
  {
    CastledBoard(p, sr, sc, er, ec);
    CastlingIff(p, sr, sc, er, ec);
    SteppedKingSafe(p, sr, ec);
  }

  /** The board after an executed castling is the landing board isValidCastlingAttempt tested, with the rook moved. */
  lemma CastledBoard(p: Position, sr: int, sc: int, er: int, ec: int)
    requires InBounds(sr, sc) && InBounds(er, ec) && At(p.grid, sr, sc).Some?
    requires Executed(p, sr, sc, er, ec) && IsCastlingMove(At(p.grid, sr, sc).value, sr, sc, er, ec)
    ensures er == sr && sc == 4 && (ec == 2 || ec == 6)
    ensures MovePiece(p, sr, sc, er, ec).next.grid == CastleRook(KingStepped(p.grid, sr, sc, ec), sr, ec)
    ensures At(p.grid, sr, sc) == Some(Piece(King, p.turn)) && At(p.grid, sr, ec) == None
    ensures At(p.grid, sr, RookStartCol(ec)) == Some(Piece(Rook, p.turn)) && At(p.grid, sr, RookTargetCol(ec)) == None
    ensures Castling(p, sr, sc, er, ec)
  {
    var mover, g, counts := ExecutedShape(p, sr, sc, er, ec);
    CastlingMoveAccepted(p, sr, sc, er, ec);
    var moved := p.grid[Index(er, ec) := Some(mover)][Index(sr, sc) := None];
    assert MovePiece(p, sr, sc, er, ec).next.grid == CastleRook(moved, er, ec);
    StepOrder(p.grid, sr, sc, ec);
  }

  /** Writing the piece onto the end square and then clearing the start is KingStepped. */
  lemma StepOrder(g: Grid, r: int, from: int, to: int)
    requires InBounds(r, from) && InBounds(r, to) && from != to
    ensures g[Index(r, to) := At(g, r, from)][Index(r, from) := None] == KingStepped(g, r, from, to)
  {
    var lhs := g[Index(r, to) := At(g, r, from)][Index(r, from) := None];
    forall i | 0 <= i < 64 ensures lhs[i] == KingStepped(g, r, from, to)[i] {
    }
  }

  /** The king stepped from column 4 to kec, safe there and alone of its colour, stays safe once the rook comes beside it. */
  lemma SteppedKingSafe(p: Position, r: int, kec: int)
    requires 0 <= r < 8 && (kec == 2 || kec == 6)
    requires At(p.grid, r, 4) == Some(Piece(King, p.turn)) && At(p.grid, r, kec) == None
    requires At(p.grid, r, RookStartCol(kec)) == Some(Piece(Rook, p.turn)) && At(p.grid, r, RookTargetCol(kec)) == None
    requires forall rr, cc :: InBounds(rr, cc) && At(p.grid, rr, cc) == Some(Piece(King, p.turn)) ==> rr == r && cc == 4
    requires !InCheck(p.(grid := KingStepped(p.grid, r, 4, kec)), p.turn)
    ensures !InCheck(p.(grid := CastleRook(KingStepped(p.grid, r, 4, kec), r, kec)), p.turn)
  {
    var moved := KingStepped(p.grid, r, 4, kec);
    forall rr, cc | InBounds(rr, cc) && At(moved, rr, cc) == Some(Piece(King, p.turn)) ensures rr == r && cc == kec {
    }
    RookMoveKeepsKingSafe(p.(grid := moved), r, kec);
  }

  /** On a row with the king on kec and its rook in the corner, moving the rook beside the king creates no attack on it. */
  lemma RookMoveKeepsKingSafe(q: Position, r: int, kec: int)
    requires 0 <= r < 8 && (kec == 2 || kec == 6)
    requires At(q.grid, r, kec) == Some(Piece(King, q.turn)) && At(q.grid, r, 4) == None
    requires At(q.grid, r, RookStartCol(kec)) == Some(Piece(Rook, q.turn)) && At(q.grid, r, RookTargetCol(kec)) == None
    requires forall rr, cc :: InBounds(rr, cc) && At(q.grid, rr, cc) == Some(Piece(King, q.turn)) ==> rr == r && cc == kec
    requires !InCheck(q, q.turn)
    ensures !InCheck(q.(grid := CastleRook(q.grid, r, kec)), q.turn)
  {
    var after := CastleRook(q.grid, r, kec);
    var qa := q.(grid := after);
    var king := Piece(King, q.turn);
    forall rr, cc | InBounds(rr, cc) && At(after, rr, cc) == Some(king) ensures rr == r && cc == kec {
      if Index(rr, cc) != Index(r, RookStartCol(kec)) && Index(rr, cc) != Index(r, RookTargetCol(kec)) {
        assert At(q.grid, rr, cc) == At(after, rr, cc);
      }
    }
    assert At(after, r, kec) == Some(king);
    FindKingFirst(q.grid, q.turn, r, kec);
    FindKingFirst(after, q.turn, r, kec);
    InCheckIff(q, q.turn);
    InCheckIff(qa, q.turn);
    if InCheck(qa, q.turn) {
      var rr, cc :| InBounds(rr, cc) && Attacks(qa, q.turn, Pos(r, kec), rr, cc);
      AttackBeforeRookMove(q, r, kec, rr, cc);
      assert false;
    }
  }

  /** An attack on the castled king after the rook's move was already an attack before it. */
  lemma AttackBeforeRookMove(q: Position, r: int, kec: int, rr: int, cc: int)
    requires 0 <= r < 8 && (kec == 2 || kec == 6) && InBounds(rr, cc)
    requires At(q.grid, r, kec) == Some(Piece(King, q.turn)) && At(q.grid, r, 4) == None
    requires At(q.grid, r, RookStartCol(kec)) == Some(Piece(Rook, q.turn)) && At(q.grid, r, RookTargetCol(kec)) == None
    requires Attacks(q.(grid := CastleRook(q.grid, r, kec)), q.turn, Pos(r, kec), rr, cc)
    ensures Attacks(q, q.turn, Pos(r, kec), rr, cc)
  {
    var after := CastleRook(q.grid, r, kec);
    var corner, beside := RookStartCol(kec), RookTargetCol(kec);
    assert Index(rr, cc) != Index(r, corner) && Index(rr, cc) != Index(r, beside);
    var sq := At(after, rr, cc).value;
    assert At(q.grid, rr, cc) == Some(sq);
    if sq.kind != Pawn {
      var liftedAfter := after[Index(r, kec) := None];
      var liftedBefore := q.grid[Index(r, kec) := None];
      assert PieceMove(q.(grid := liftedAfter), rr, cc, r, kec);
      assert At(liftedBefore, rr, cc) == Some(sq) && At(liftedAfter, rr, cc) == Some(sq);
      if sq.kind in {Bishop, Rook, Queen} {
        assert OnLine(rr, cc, r, kec) && PathClear(liftedAfter, rr, cc, r, kec);
        PathBeforeRookMove(q.grid, r, kec, rr, cc);
      }
      assert PieceMove(q.(grid := liftedBefore), rr, cc, r, kec);
    }
  }

  /** A line to the castled king that is clear after the rook's move was clear before it. */
  lemma PathBeforeRookMove(g: Grid, r: int, kec: int, rr: int, cc: int)
    requires 0 <= r < 8 && (kec == 2 || kec == 6) && InBounds(rr, cc) && OnLine(rr, cc, r, kec)
    requires At(g, r, RookTargetCol(kec)) == None
    requires PathClear(CastleRook(g, r, kec)[Index(r, kec) := None], rr, cc, r, kec)
    ensures PathClear(g[Index(r, kec) := None], rr, cc, r, kec)
  {
    var liftedAfter := CastleRook(g, r, kec)[Index(r, kec) := None];
    var liftedBefore := g[Index(r, kec) := None];
    var corner, beside := RookStartCol(kec), RookTargetCol(kec);
    PathClearIff(liftedAfter, rr, cc, r, kec);
    PathClearIff(liftedBefore, rr, cc, r, kec);
    forall x, y | InBounds(x, y) && Between(rr, cc, r, kec, x, y) ensures At(liftedBefore, x, y) == None {
      assert (x, y) != (r, corner);
      if Index(x, y) != Index(r, beside) {
        assert At(liftedBefore, x, y) == At(liftedAfter, x, y);
      }
    }
  }

  /**
   * Flags only ever get set: a king move sets its side's king flag, a rook leaving its own corner
   * sets that corner's flag, and the opponent's flags stay as they were.
   */
  lemma FlagsAfterMove(p: Position, sr: int, sc: int, er: int, ec: int)
    requires InBounds(sr, sc) && InBounds(er, ec) && At(p.grid, sr, sc).Some?
    requires Executed(p, sr, sc, er, ec)
    ensures var m := At(p.grid, sr, sc).value; var f, f' := p.flags, MovePiece(p, sr, sc, er, ec).next.flags;
      (KingMoved(f', p.turn) <==> KingMoved(f, p.turn) || m.kind == King) &&
      (RookMoved(f', p.turn, true) <==> RookMoved(f, p.turn, true) || (m.kind == Rook && sr == BackRow(p.turn) && sc == 7)) &&
      (RookMoved(f', p.turn, false) <==> RookMoved(f, p.turn, false) || (m.kind == Rook && sr == BackRow(p.turn) && sc == 0)) &&
      KingMoved(f', Opponent(p.turn)) == KingMoved(f, Opponent(p.turn)) &&
      RookMoved(f', Opponent(p.turn), true) == RookMoved(f, Opponent(p.turn), true) &&
      RookMoved(f', Opponent(p.turn), false) == RookMoved(f, Opponent(p.turn), false)
  {
    var mover, g, counts := ExecutedShape(p, sr, sc, er, ec);
  }

  /** Captures keep the piece-count table equal to the board's true counts. */
  lemma MovePreservesCounts(p: Position, sr: int, sc: int, er: int, ec: int)
    requires CountsAgree(p)
    ensures CountsAgree(MovePiece(p, sr, sc, er, ec).next)
  {
    if Executed(p, sr, sc, er, ec) {
      var mover, g, counts := ExecutedShape(p, sr, sc, er, ec);
      if IsEnPassantCapture(p, sr, sc, er, ec) {
        CountsOfUpdate(p.grid, Index(sr, ec), None);
      }
      var castles := IsCastlingMove(mover, sr, sc, er, ec);
      if castles {
        CastlingMoveAccepted(p, sr, sc, er, ec);
      }
      CompleteKeepsCounts(p, mover, sr, sc, er, ec, g, counts);
    }
  }

  /**
   * The board a completed move leaves agrees with the table it carries, when that table is the true
   * one of the board before the move less the piece captured on the end square.
   */
  lemma CompleteKeepsCounts(p: Position, mover: Piece, sr: int, sc: int, er: int, ec: int, g: Grid, counts: map<Piece, int>)
    requires InBounds(sr, sc) && InBounds(er, ec) && (sr != er || sc != ec) && At(g, sr, sc) == Some(mover)
    requires counts == if At(g, er, ec).Some? then Bump(CountsOf(g), At(g, er, ec).value, -1) else CountsOf(g)
    requires IsCastlingMove(mover, sr, sc, er, ec) ==>
      sc == 4 && (ec == 2 || ec == 6) && At(g, sr, RookStartCol(ec)).Some? && At(g, sr, RookTargetCol(ec)) == None
    ensures CountsAgree(Complete(p, mover, sr, sc, er, ec, g, counts).next)
  {
    var s, e := Index(sr, sc), Index(er, ec);
    CountsOfRelocate(g, s, e);
    var moved := g[e := Some(mover)][s := None];
    if IsCastlingMove(mover, sr, sc, er, ec) {
      assert At(moved, er, RookStartCol(ec)) == At(g, er, RookStartCol(ec));
      assert At(moved, er, RookTargetCol(ec)) == None;
      CastleRookCounts(moved, er, ec);
    }
  }

  /** The castling rook's jump over the king keeps the true count table. */
  lemma CastleRookCounts(g: Grid, r: int, kec: int)
    requires 0 <= r < 8 && At(g, r, RookStartCol(kec)).Some? && At(g, r, RookTargetCol(kec)) == None
    ensures CountsOf(CastleRook(g, r, kec)) == CountsOf(g)
  {
    CountsOfRelocate(g, Index(r, RookStartCol(kec)), Index(r, RookTargetCol(kec)));
  }

  /**
   * finalizePromotion on a pawn puts a piece of the chosen type and the pawn's colour there, passes
   * the turn and changes nothing else; on any other square it changes nothing.
   */
  lemma FinalizePromotionEffect(p: Position, r: int, c: int, t: PieceType)
    requires InBounds(r, c)
    ensures var q, sq := FinalizePromotion(p, r, c, t), At(p.grid, r, c);
      if sq.Some? && sq.value.kind == Pawn then
        At(q.grid, r, c) == Some(Piece(t, sq.value.color)) && q.turn == Opponent(p.turn) &&
        q.flags == p.flags && q.ep == p.ep &&
        forall rr, cc :: InBounds(rr, cc) && (rr, cc) != (r, c) ==> At(q.grid, rr, cc) == At(p.grid, rr, cc)
      else
        q == p
  {
  }

  /** finalizePromotion keeps the piece-count table equal to the board's true counts. */
  lemma FinalizePreservesCounts(p: Position, r: int, c: int, t: PieceType)
    requires InBounds(r, c) && CountsAgree(p)
    ensures CountsAgree(FinalizePromotion(p, r, c, t))
  {
    var sq := At(p.grid, r, c);
    if sq.Some? && sq.value.kind == Pawn {
      CountsOfUpdate(p.grid, Index(r, c), Some(Piece(t, sq.value.color)));
    }
  }

  /** A pending promotion completed by finalizePromotion: the new piece is the mover's and the turn has passed. */
  lemma PromotionCompletesTurn(p: Position, sr: int, sc: int, er: int, ec: int, t: PieceType)
    requires MovePiece(p, sr, sc, er, ec).result == PromotionPending
    ensures InBounds(er, ec)
    ensures var q := FinalizePromotion(MovePiece(p, sr, sc, er, ec).next, er, ec, t);
      q.turn == Opponent(p.turn) && At(q.grid, er, ec) == Some(Piece(t, p.turn))
  {
    TurnAlternation(p, sr, sc, er, ec);
  }
}
