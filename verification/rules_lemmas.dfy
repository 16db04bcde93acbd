/**
 * What the legality rules of Board.java mean, stated against independent reference definitions:
 * the squares strictly between two squares, the knight's distance, the pawn's forward direction,
 * castling's preconditions, and the attack test as "some opposing piece attacks the king".
 */
module RulesLemmas {
  import opened Util
  import opened Pieces
  import opened Positions
  import opened Rules

  /** x lies in the closed interval spanned by a and b. */
  predicate Within(a: int, x: int, b: int)
  {
    (a <= x <= b) || (b <= x <= a)
  }

  /** x lies strictly inside the interval spanned by a and b. */
  predicate Strictly(a: int, x: int, b: int)
  {
    (a < x < b) || (b < x < a)
  }

  /** (r, c) lies on the segment from (sr, sc) to (er, ec), excluding both ends. */
  predicate Between(sr: int, sc: int, er: int, ec: int, r: int, c: int)
  {
    (r != sr || c != sc) && (r != er || c != ec) && Within(sr, r, er) && Within(sc, c, ec)
    && (sr == er || sc == ec || Abs(r - sr) == Abs(c - sc))
  }

  lemma StepIsBetween(sr: int, sc: int, er: int, ec: int, k: int)
    requires InBounds(sr, sc) && InBounds(er, ec) && OnLine(sr, sc, er, ec) && 0 < k < Dist(sr, sc, er, ec)
    ensures InBounds(Along(sr, Sign(er - sr), k), Along(sc, Sign(ec - sc), k))
    ensures Between(sr, sc, er, ec, Along(sr, Sign(er - sr), k), Along(sc, Sign(ec - sc), k))
  {
  }

  lemma BetweenIsStep(sr: int, sc: int, er: int, ec: int, r: int, c: int) returns (k: int)
    requires InBounds(sr, sc) && InBounds(er, ec) && OnLine(sr, sc, er, ec) && Between(sr, sc, er, ec, r, c)
    ensures 0 < k < Dist(sr, sc, er, ec)
    ensures Along(sr, Sign(er - sr), k) == r && Along(sc, Sign(ec - sc), k) == c
  {
    k := if Abs(r - sr) >= Abs(c - sc) then Abs(r - sr) else Abs(c - sc);
  }

  /** isPathClear holds iff every square strictly between start and end is empty. */
  lemma PathClearIff(g: Grid, sr: int, sc: int, er: int, ec: int)
    requires InBounds(sr, sc) && InBounds(er, ec) && OnLine(sr, sc, er, ec)
    ensures PathClear(g, sr, sc, er, ec) <==>
      forall r, c :: InBounds(r, c) && Between(sr, sc, er, ec, r, c) ==> At(g, r, c) == None
  {
    if PathClear(g, sr, sc, er, ec) {
      forall r, c | InBounds(r, c) && Between(sr, sc, er, ec, r, c) ensures At(g, r, c) == None {
        var k := BetweenIsStep(sr, sc, er, ec, r, c);
        assert StepSquare(g, sr, sc, er, ec, k) == None;
      }
    }
    if forall r, c :: InBounds(r, c) && Between(sr, sc, er, ec, r, c) ==> At(g, r, c) == None {
      forall k | 0 < k < Dist(sr, sc, er, ec) ensures StepSquare(g, sr, sc, er, ec, k) == None {
        StepIsBetween(sr, sc, er, ec, k);
      }
    }
  }

  /** Walking from the start towards the end, the walk is on the end square exactly after Dist steps. */
  lemma AlongReachesEnd(sr: int, sc: int, er: int, ec: int, k: int)
    requires InBounds(sr, sc) && InBounds(er, ec) && OnLine(sr, sc, er, ec) && 0 <= k <= Dist(sr, sc, er, ec)
    ensures (Along(sr, Sign(er - sr), k) == er && Along(sc, Sign(ec - sc), k) == ec) <==> k == Dist(sr, sc, er, ec)
  {
  }

  /** A knight moves iff its move has squared length 5, i.e. the deltas are (2, 1) or (1, 2). */
  lemma KnightMoveIff(p: Position, sr: int, sc: int, er: int, ec: int)
    requires InBounds(sr, sc) && InBounds(er, ec)
    requires At(p.grid, sr, sc).Some? && At(p.grid, sr, sc).value.kind == Knight
    ensures PieceMove(p, sr, sc, er, ec) <==> (er - sr) * (er - sr) + (ec - sc) * (ec - sc) == 5
  {
    assert PieceMove(p, sr, sc, er, ec) == KnightGeometry(Abs(er - sr), Abs(ec - sc));
    KnightSquares(er - sr, ec - sc);
  }

  lemma KnightSquares(dr: int, dc: int)
    ensures KnightGeometry(Abs(dr), Abs(dc)) <==> dr * dr + dc * dc == 5
  {
    var a, b := Abs(dr), Abs(dc);
    assert dr * dr == a * a && dc * dc == b * b;
    if a >= 3 { assert a * a >= 9; }
    if b >= 3 { assert b * b >= 9; }
  }

  /** Directions a sliding piece may take: diagonal for a bishop, orthogonal for a rook, either for a queen. */
  predicate SlideAllowed(kind: PieceType, dr: int, dc: int)
  {
    var diagonal := dr != 0 && Abs(dr) == Abs(dc);
    var straight := (dr == 0) != (dc == 0);
    match kind
    case Bishop => diagonal
    case Rook => straight
    case Queen => diagonal || straight
    case _ => false
  }

  /** Bishop, rook and queen: a non-zero line of the right kind whose strictly-between squares are empty. */
  lemma SlidingMoveIff(p: Position, sr: int, sc: int, er: int, ec: int)
    requires InBounds(sr, sc) && InBounds(er, ec)
    requires At(p.grid, sr, sc).Some? && At(p.grid, sr, sc).value.kind in {Bishop, Rook, Queen}
    ensures PieceMove(p, sr, sc, er, ec) <==>
      SlideAllowed(At(p.grid, sr, sc).value.kind, er - sr, ec - sc) &&
      forall r, c :: InBounds(r, c) && Between(sr, sc, er, ec, r, c) ==> At(p.grid, r, c) == None
  {
    if SlideAllowed(At(p.grid, sr, sc).value.kind, er - sr, ec - sc) {
      PathClearIff(p.grid, sr, sc, er, ec);
    }
  }

  /** A pawn moves one row forward (straight or diagonally), or two rows straight from its home row over an empty square. */
  lemma PawnMoveIff(p: Position, sr: int, sc: int, er: int, ec: int)
    requires InBounds(sr, sc) && InBounds(er, ec)
    requires At(p.grid, sr, sc).Some? && At(p.grid, sr, sc).value.kind == Pawn
    ensures var col := At(p.grid, sr, sc).value.color;
      PieceMove(p, sr, sc, er, ec) <==>
        (er - sr == Forward(col) && Abs(ec - sc) <= 1) ||
        (er - sr == 2 * Forward(col) && ec == sc && sr == PawnHomeRow(col) && At(p.grid, sr + Forward(col), sc) == None)
  {
  }

  /** A king moves to an adjacent square, or two columns along its row when the castling test passes. */
  lemma KingMoveIff(p: Position, sr: int, sc: int, er: int, ec: int)
    requires InBounds(sr, sc) && InBounds(er, ec)
    requires At(p.grid, sr, sc).Some? && At(p.grid, sr, sc).value.kind == King
    ensures PieceMove(p, sr, sc, er, ec) <==>
      (Abs(er - sr) <= 1 && Abs(ec - sc) <= 1 && (er != sr || ec != sc)) ||
      (er == sr && Abs(ec - sc) == 2 && Castling(p, sr, sc, er, ec))
  {
  }

  /** No piece may move to the square it stands on. */
  lemma NoMoveInPlace(p: Position, r: int, c: int)
    requires InBounds(r, c)
    ensures !PieceMove(p, r, c, r, c)
  {
    if At(p.grid, r, c).Some? && At(p.grid, r, c).value.kind == Pawn {
      PawnMoveIff(p, r, c, r, c);
    }
  }

  /** With the castling king's intermediate square empty and distinct from both ends, two single steps equal one jump. */
  lemma KingSteppedTwice(g: Grid, r: int, a: int, b: int, c: int)
    requires InBounds(r, a) && InBounds(r, b) && InBounds(r, c) && a != b && b != c && a != c
    requires At(g, r, b) == None
    ensures KingStepped(KingStepped(g, r, a, b), r, b, c) == KingStepped(g, r, a, c)
  {
    var lhs, rhs := KingStepped(KingStepped(g, r, a, b), r, b, c), KingStepped(g, r, a, c);
    forall i | 0 <= i < 64 ensures lhs[i] == rhs[i] {
    }
  }

  /**
   * Writing the mover and the captured piece back, and the en-passant victim if there was one,
   * undoes the simulated move.
   */
  lemma SimulationUndone(p: Position, sr: int, sc: int, er: int, ec: int)
    requires InBounds(sr, sc) && InBounds(er, ec) && (sr, sc) != (er, ec)
    requires PawnStepOk(p, sr, sc, er, ec)
    ensures var back := Simulate(p, sr, sc, er, ec)[Index(sr, sc) := At(p.grid, sr, sc)][Index(er, ec) := At(p.grid, er, ec)];
      if IsEnPassantCapture(p, sr, sc, er, ec) then
        var vr := BehindRow(At(p.grid, sr, sc).value.color, er);
        InBounds(vr, ec) &&
        (At(p.grid, vr, ec).Some? ==> back[Index(vr, ec) := At(p.grid, vr, ec)] == p.grid) &&
        (At(p.grid, vr, ec).None? ==> back == p.grid)
      else
        back == p.grid
  {
    var back := Simulate(p, sr, sc, er, ec)[Index(sr, sc) := At(p.grid, sr, sc)][Index(er, ec) := At(p.grid, er, ec)];
    if IsEnPassantCapture(p, sr, sc, er, ec) {
      EnPassantVictimRow(p, sr, sc, er, ec);
      var vr := BehindRow(At(p.grid, sr, sc).value.color, er);
      assert Index(vr, ec) != Index(sr, sc) && Index(vr, ec) != Index(er, ec);
      if At(p.grid, vr, ec).Some? {
        var full := back[Index(vr, ec) := At(p.grid, vr, ec)];
        forall i | 0 <= i < 64 ensures full[i] == p.grid[i] {
        }
      } else {
        forall i | 0 <= i < 64 ensures back[i] == p.grid[i] {
        }
      }
    } else {
      forall i | 0 <= i < 64 ensures back[i] == p.grid[i] {
      }
    }
  }

  /** Putting the king back on (r, a) and emptying (r, b) again undoes a step onto the empty square (r, b). */
  lemma KingStepUndone(g: Grid, r: int, a: int, b: int)
    requires InBounds(r, a) && InBounds(r, b) && a != b && At(g, r, b) == None
    ensures KingStepped(g, r, a, b)[Index(r, a) := At(g, r, a)][Index(r, b) := None] == g
  {
    var lhs := KingStepped(g, r, a, b)[Index(r, a) := At(g, r, a)][Index(r, b) := None];
    forall i | 0 <= i < 64 ensures lhs[i] == g[i] {
    }
  }

  /**
   * Castling is accepted iff the king stands on e1/e8-style home square (row 0 or 7, column 4) and moves
   * two columns along the row, its king-moved flag is clear, the side's rook stands on the corner
   * (column 7 kingside, 0 queenside) with its flag clear, the king is not in check, every square between
   * king and rook is empty, and the king would not be in check on the square it passes or lands on.
   */
  lemma CastlingIff(p: Position, ksr: int, ksc: int, ker: int, kec: int)
    requires InBounds(ksr, ksc) && InBounds(ker, kec)
    ensures Castling(p, ksr, ksc, ker, kec) <==>
      (ksr == 0 || ksr == 7) && ker == ksr && ksc == 4 && (kec == 2 || kec == 6)
      && !KingMoved(p.flags, p.turn)
      && At(p.grid, ksr, RookStartCol(kec)) == Some(Piece(Rook, p.turn))
      && !RookMoved(p.flags, p.turn, kec == 6)
      && !InCheck(p, p.turn)
      && (forall c :: Strictly(ksc, c, RookStartCol(kec)) ==> At(p.grid, ksr, c) == None)
      && !InCheck(p.(grid := KingStepped(p.grid, ksr, ksc, (ksc + kec) / 2)), p.turn)
      && !InCheck(p.(grid := KingStepped(p.grid, ksr, ksc, kec)), p.turn)
  {
    if CastlingGuard(ksr, ksc, ker, kec) {
      var rookCol := RookStartCol(kec);
      var inter := ksc + Sign(kec - ksc);
      assert inter == (ksc + kec) / 2;
      PathClearIff(p.grid, ksr, ksc, ksr, rookCol);
      assert (forall r, c :: InBounds(r, c) && Between(ksr, ksc, ksr, rookCol, r, c) ==> At(p.grid, r, c) == None)
        <==> (forall c :: Strictly(ksc, c, rookCol) ==> At(p.grid, ksr, c) == None) by {
        forall c | Strictly(ksc, c, rookCol) ensures Between(ksr, ksc, ksr, rookCol, ksr, c) && InBounds(ksr, c) {
        }
      }
      if PathClear(p.grid, ksr, ksc, ksr, rookCol) {
        assert Strictly(ksc, inter, rookCol);
        KingSteppedTwice(p.grid, ksr, ksc, inter, kec);
      }
    }
  }

  /** An accepted castling leaves empty the squares the king passes and lands on and the rook's target. */
  lemma CastlingSquaresEmpty(p: Position, ksr: int, ksc: int, ker: int, kec: int)
    requires InBounds(ksr, ksc) && InBounds(ker, kec) && Castling(p, ksr, ksc, ker, kec)
    ensures InBounds(ksr, RookTargetCol(kec))
    ensures At(p.grid, ksr, (ksc + kec) / 2) == None && At(p.grid, ksr, kec) == None
    ensures At(p.grid, ksr, RookTargetCol(kec)) == None
  {
    CastlingIff(p, ksr, ksc, ker, kec);
    var rookCol := RookStartCol(kec);
    assert Strictly(ksc, (ksc + kec) / 2, rookCol) && Strictly(ksc, kec, rookCol) && Strictly(ksc, RookTargetCol(kec), rookCol);
  }

  /** A king in check on the square it passes fails the castling passage test. */
  lemma SafePassageBlocked(p: Position, r: int, ksc: int, kec: int)
    requires InBounds(r, ksc) && InBounds(r, kec) && Abs(kec - ksc) == 2
    requires InCheck(p.(grid := KingStepped(p.grid, r, ksc, ksc + Sign(kec - ksc))), p.turn)
    ensures !SafePassage(p, r, ksc, kec)
  {
  }

  /** Past the first square, the castling passage test is the check test on the landing square. */
  lemma SafePassageLanding(p: Position, r: int, ksc: int, kec: int)
    requires InBounds(r, ksc) && InBounds(r, kec) && Abs(kec - ksc) == 2
    requires !InCheck(p.(grid := KingStepped(p.grid, r, ksc, ksc + Sign(kec - ksc))), p.turn)
    ensures SafePassage(p, r, ksc, kec) ==
      !InCheck(p.(grid := KingStepped(KingStepped(p.grid, r, ksc, ksc + Sign(kec - ksc)), r, ksc + Sign(kec - ksc), kec)), p.turn)
  {
  }

  /** With the king on its home file and the way to the rook clear, the squares it passes and lands on are empty. */
  lemma CastlingPathEmpty(g: Grid, ksr: int, ksc: int, ker: int, kec: int)
    requires InBounds(ksr, ksc) && InBounds(ker, kec) && CastlingGuard(ksr, ksc, ker, kec)
    requires PathClear(g, ksr, ksc, ksr, RookStartCol(kec))
    ensures InBounds(ksr, ksc + Sign(kec - ksc))
    ensures At(g, ksr, ksc + Sign(kec - ksc)) == None && At(g, ksr, kec) == None
  {
    var rookCol := RookStartCol(kec);
    PathClearIff(g, ksr, ksc, ksr, rookCol);
    assert Between(ksr, ksc, ksr, rookCol, ksr, ksc + Sign(kec - ksc));
    assert Between(ksr, ksc, ksr, rookCol, ksr, kec);
  }

  /** The pawn an en-passant capture removes stands on the mover's own row, beside it. */
  lemma EnPassantVictimRow(p: Position, sr: int, sc: int, er: int, ec: int)
    requires InBounds(sr, sc) && InBounds(er, ec) && PawnStepOk(p, sr, sc, er, ec)
    requires IsEnPassantCapture(p, sr, sc, er, ec)
    ensures BehindRow(At(p.grid, sr, sc).value.color, er) == sr
  {
  }

  /** The piece on (r, c) attacks the king square k, by the per-square test of isKingInCheck. */
  predicate Attacks(p: Position, kc: PieceColor, k: Pos, r: int, c: int)
    requires InBounds(k.row, k.col) && InBounds(r, c)
  {
    var sq := At(p.grid, r, c);
    sq.Some? && sq.value.color == Opponent(kc) &&
    if sq.value.kind == Pawn then
      Abs(k.col - c) == 1 && k.row - r == Forward(sq.value.color)
    else
      PieceMove(p.(grid := p.grid[Index(k.row, k.col) := None]), r, c, k.row, k.col)
  }

  /** (r, c) comes at or after (r0, c0) in row-major order. */
  predicate NotBefore(r: int, c: int, r0: int, c0: int)
  {
    r > r0 || (r == r0 && c >= c0)
  }

  lemma {:induction false} AttackScanIff(p: Position, kc: PieceColor, k: Pos, r: int, c: int)
    requires InBounds(k.row, k.col) && At(p.grid, k.row, k.col).Some?
    requires 0 <= r <= 8 && 0 <= c <= 8
    ensures AttackScan(p, kc, k, r, c) <==>
      exists rr, cc :: InBounds(rr, cc) && NotBefore(rr, cc, r, c) && Attacks(p, kc, k, rr, cc)
    decreases 8 - r, 8 - c
  {
    if r == 8 {
    } else if c == 8 {
      AttackScanIff(p, kc, k, r + 1, 0);
      if exists rr, cc :: InBounds(rr, cc) && NotBefore(rr, cc, r, c) && Attacks(p, kc, k, rr, cc) {
        var rr, cc :| InBounds(rr, cc) && NotBefore(rr, cc, r, c) && Attacks(p, kc, k, rr, cc);
        assert NotBefore(rr, cc, r + 1, 0);
      }
    } else {
      AttackScanIff(p, kc, k, r, c + 1);
      if exists rr, cc :: InBounds(rr, cc) && NotBefore(rr, cc, r, c) && Attacks(p, kc, k, rr, cc) {
        var rr, cc :| InBounds(rr, cc) && NotBefore(rr, cc, r, c) && Attacks(p, kc, k, rr, cc);
        if rr != r || cc != c {
          assert NotBefore(rr, cc, r, c + 1);
        }
      }
      if Attacks(p, kc, k, r, c) {
        assert InBounds(r, c) && NotBefore(r, c, r, c);
      }
    }
  }

  /** One square of the scan: the piece there attacks, or the rest of the scan finds an attacker. */
  lemma AttackScanStep(p: Position, kc: PieceColor, k: Pos, r: int, c: int)
    requires InBounds(k.row, k.col) && At(p.grid, k.row, k.col).Some? && InBounds(r, c)
    ensures AttackScan(p, kc, k, r, c) == (Attacks(p, kc, k, r, c) || AttackScan(p, kc, k, r, c + 1))
  {
  }

  /** isKingInCheck holds iff the king of colour kc is found and some square holds a piece attacking it. */
  lemma InCheckIff(p: Position, kc: PieceColor)
    ensures InCheck(p, kc) <==>
      FindKing(p.grid, kc).Some? &&
      exists r, c :: InBounds(r, c) && Attacks(p, kc, FindKing(p.grid, kc).value, r, c)
  {
    match FindKing(p.grid, kc)
    case None =>
    case Some(k) =>
      AttackScanIff(p, kc, k, 0, 0);
  }

  lemma {:induction false} FindKingFromNone(g: Grid, kc: PieceColor, r: int, c: int)
    requires 0 <= r <= 8 && 0 <= c <= 8
    ensures FindKingFrom(g, kc, r, c).None? <==>
      forall rr, cc :: InBounds(rr, cc) && NotBefore(rr, cc, r, c) ==> At(g, rr, cc) != Some(Piece(King, kc))
    decreases 8 - r, 8 - c
  {
    if r == 8 {
    } else if c == 8 {
      FindKingFromNone(g, kc, r + 1, 0);
    } else {
      FindKingFromNone(g, kc, r, c + 1);
    }
  }

  /** findKing returns null iff no square holds the king of that colour; otherwise the first such square. */
  lemma FindKingIff(g: Grid, kc: PieceColor)
    ensures FindKing(g, kc).None? <==> forall r, c :: InBounds(r, c) ==> At(g, r, c) != Some(Piece(King, kc))
  {
    FindKingFromNone(g, kc, 0, 0);
  }

  /** The scan from (r0, c0) stops at the first square at or after it that holds the king. */
  lemma {:induction false} FindKingFromFirst(g: Grid, kc: PieceColor, r0: int, c0: int, r: int, c: int)
    requires 0 <= r0 <= 8 && 0 <= c0 <= 8 && InBounds(r, c) && NotBefore(r, c, r0, c0)
    requires At(g, r, c) == Some(Piece(King, kc))
    requires forall rr, cc :: InBounds(rr, cc) && NotBefore(rr, cc, r0, c0) && !NotBefore(rr, cc, r, c) ==>
      At(g, rr, cc) != Some(Piece(King, kc))
    ensures FindKingFrom(g, kc, r0, c0) == Some(Pos(r, c))
    decreases 8 - r0, 8 - c0
  {
    if r0 == 8 {
      assert false;
    } else if c0 == 8 {
      FindKingFromFirst(g, kc, r0 + 1, 0, r, c);
    } else if r0 != r || c0 != c {
      assert NotBefore(r0, c0, r0, c0) && !NotBefore(r0, c0, r, c);
      FindKingFromFirst(g, kc, r0, c0 + 1, r, c);
    }
  }

  /** findKing returns the first square, in row-major order, holding the king. */
  lemma FindKingFirst(g: Grid, kc: PieceColor, r: int, c: int)
    requires InBounds(r, c) && At(g, r, c) == Some(Piece(King, kc))
    requires forall rr, cc :: InBounds(rr, cc) && !NotBefore(rr, cc, r, c) ==> At(g, rr, cc) != Some(Piece(King, kc))
    ensures FindKing(g, kc) == Some(Pos(r, c))
  {
    FindKingFromFirst(g, kc, 0, 0, r, c);
  }

  /**
   * What an accepted move attempt guarantees: the mover is the side to move's, start and end differ,
   * the end square holds no own piece, the geometry holds, and the mover's king is not in check on the
   * board after the move (en-passant victim removed).
   */
  lemma MoveAttemptSound(p: Position, sr: int, sc: int, er: int, ec: int)
    requires MoveAttempt(p, sr, sc, er, ec)
    ensures InBounds(sr, sc) && InBounds(er, ec) && (sr != er || sc != ec)
    ensures At(p.grid, sr, sc).Some? && At(p.grid, sr, sc).value.color == p.turn
    ensures At(p.grid, er, ec).None? || At(p.grid, er, ec).value.color != p.turn
    ensures PieceMove(p, sr, sc, er, ec) && PawnStepOk(p, sr, sc, er, ec)
    ensures At(p.grid, sr, sc).value.kind == Pawn ==> PawnOccupation(p, p.turn, sr, sc, er, ec)
    ensures !InCheck(p.(grid := Simulate(p, sr, sc, er, ec)), p.turn)
  {
    if sr == er && sc == ec {
      NoMoveInPlace(p, sr, sc);
    }
  }

  /** The converse: a move meeting all of those conditions is accepted. */
  lemma MoveAttemptComplete(p: Position, sr: int, sc: int, er: int, ec: int)
    requires InBounds(sr, sc) && InBounds(er, ec)
    requires At(p.grid, sr, sc).Some? && At(p.grid, sr, sc).value.color == p.turn
    requires At(p.grid, er, ec).None? || At(p.grid, er, ec).value.color != p.turn
    requires PieceMove(p, sr, sc, er, ec) && PawnStepOk(p, sr, sc, er, ec)
    requires At(p.grid, sr, sc).value.kind == Pawn ==> PawnOccupation(p, p.turn, sr, sc, er, ec)
    requires !InCheck(p.(grid := Simulate(p, sr, sc, er, ec)), p.turn)
    ensures MoveAttempt(p, sr, sc, er, ec)
  {
  }

  /**
   * Pawn moves that pass the attempt: straight onto an empty square; diagonally one row forward onto
   * an opponent piece, or onto the en-passant square from row 3 (white) or row 4 (black), in which case
   * the pawn taken stands beside the mover.
   */
  lemma PawnAttemptRules(p: Position, sr: int, sc: int, er: int, ec: int)
    requires MoveAttempt(p, sr, sc, er, ec)
    requires At(p.grid, sr, sc) == Some(Piece(Pawn, p.turn))
    ensures InBounds(sr, sc) && InBounds(er, ec)
    ensures sc == ec ==> At(p.grid, er, ec).None?
    ensures sc != ec ==>
      er - sr == Forward(p.turn) && Abs(ec - sc) == 1 &&
      ((At(p.grid, er, ec).Some? && At(p.grid, er, ec).value.color != p.turn) ||
       (p.ep == Some(Pos(er, ec)) && sr == (if p.turn == White then 3 else 4)))
    ensures IsEnPassantCapture(p, sr, sc, er, ec) ==> BehindRow(p.turn, er) == sr
  {
    MoveAttemptSound(p, sr, sc, er, ec);
    PawnMoveIff(p, sr, sc, er, ec);
  }
}
