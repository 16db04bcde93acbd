/**
 * Properties of the notation layer: the full form parses to in-bounds squares and inverts the
 * coordinate rendering, the piece-letter forms name a source only when it is the single legal
 * candidate, and the enumeration lists exactly the legal moves, each of which plays back through move().
 */
module NotationLemmas {
  import opened Util
  import opened Pieces
  import opened Positions
  import opened Rules
  import opened RulesLemmas
  import opened Execution
  import opened ExecutionLemmas
  import opened Notation

  /** The full form always names two squares on the board, and rendering them gives the string back. */
  lemma FullFormParse(p: Position, s: string)
    requires IsFullForm(s)
    ensures Parse(p, s).Some?
    ensures var m := Parse(p, s).value;
      InBounds(m.startRow, m.startCol) && InBounds(m.endRow, m.endCol) &&
      s == [FileChar(m.startCol), RankChar(m.startRow), FileChar(m.endCol), RankChar(m.endRow)]
  {
    var m := Parse(p, s).value;
    assert s == [s[0], s[1], s[2], s[3]];
  }

  lemma CoordinateCharsInverse(row: int, col: int)
    requires InBounds(row, col)
    ensures RankRow(RankChar(row)) == row && FileCol(FileChar(col)) == col
  {
  }

  /** The full form parses to the squares its characters name. */
  lemma FullFormValue(p: Position, s: string)
    requires IsFullForm(s)
    ensures Parse(p, s) == Some(Coords(RankRow(s[1]), FileCol(s[0]), RankRow(s[3]), FileCol(s[2])))
  {
  }

  /** A non-castling move rendered as coordinates parses back to the same move. */
  lemma RenderParse(p: Position, m: BoardMove)
    requires At(p.grid, m.startRow, m.startCol).None? ||
      !IsCastlingMove(At(p.grid, m.startRow, m.startCol).value, m.startRow, m.startCol, m.endRow, m.endCol)
    ensures IsFullForm(Render(p, m))
    ensures Parse(p, Render(p, m)) == Some(m)
  {
    var s := Render(p, m);
    assert s == [FileChar(m.startCol), RankChar(m.startRow), FileChar(m.endCol), RankChar(m.endRow)];
    FullFormValue(p, s);
    CoordinateCharsInverse(m.startRow, m.startCol);
    CoordinateCharsInverse(m.endRow, m.endCol);
  }

  lemma ScanRowStep(keep: (int, int) -> bool, r0: int)
    requires 0 <= r0 < 8
    ensures SquaresFrom(keep, r0, 8) == SquaresFrom(keep, r0 + 1, 0)
  {
  }

  lemma ScanSquareStep(keep: (int, int) -> bool, r0: int, c0: int, r: int, c: int)
    requires 0 <= r0 < 8 && 0 <= c0 < 8
    ensures Pos(r, c) in SquaresFrom(keep, r0, c0) <==>
      (r == r0 && c == c0 && keep(r, c)) || Pos(r, c) in SquaresFrom(keep, r0, c0 + 1)
  {
  }

  /** The scan keeps exactly the squares at or after its start that pass the test. */
  lemma {:induction false} SquaresFromIff(keep: (int, int) -> bool, r0: int, c0: int, r: int, c: int)
    requires 0 <= r0 <= 8 && 0 <= c0 <= 8
    ensures Pos(r, c) in SquaresFrom(keep, r0, c0) <==> InBounds(r, c) && NotBefore(r, c, r0, c0) && keep(r, c)
    decreases 8 - r0, 8 - c0
  {
    if r0 == 8 {
      assert SquaresFrom(keep, r0, c0) == [];
    } else if c0 == 8 {
      SquaresFromIff(keep, r0 + 1, 0, r, c);
      ScanRowStep(keep, r0);
      assert InBounds(r, c) ==> NotBefore(r, c, r0, c0) == NotBefore(r, c, r0 + 1, 0);
    } else {
      SquaresFromIff(keep, r0, c0 + 1, r, c);
      ScanSquareStep(keep, r0, c0, r, c);
      assert NotBefore(r, c, r0, c0) == ((r == r0 && c == c0) || NotBefore(r, c, r0, c0 + 1));
    }
  }

  /** The first square the scan lists does not come again. */
  lemma {:induction false} ScanHeadUnique(keep: (int, int) -> bool, r0: int, c0: int)
    requires 0 <= r0 <= 8 && 0 <= c0 <= 8
    requires |SquaresFrom(keep, r0, c0)| > 0
    ensures SquaresFrom(keep, r0, c0)[0] !in SquaresFrom(keep, r0, c0)[1..]
    decreases 8 - r0, 8 - c0
  {
    var all := SquaresFrom(keep, r0, c0);
    if r0 == 8 {
      assert false;
    } else if c0 == 8 {
      assert all == SquaresFrom(keep, r0 + 1, 0);
      ScanHeadUnique(keep, r0 + 1, 0);
    } else {
      var rest := SquaresFrom(keep, r0, c0 + 1);
      if keep(r0, c0) {
        SquaresFromIff(keep, r0, c0 + 1, r0, c0);
        assert !NotBefore(r0, c0, r0, c0 + 1);
        assert all == [Pos(r0, c0)] + rest;
        assert all[0] == Pos(r0, c0) && all[1..] == rest;
      } else {
        assert all == [] + rest;
        assert all == rest;
        ScanHeadUnique(keep, r0, c0 + 1);
      }
    }
  }

  /** The piece-letter forms: which piece, which hint and which target square the string names. */
  predicate IsPieceForm(s: string)
  {
    IsFileForm(s) || IsRankForm(s) || IsShortForm(s)
  }

  function FormType(s: string): PieceType
    requires IsPieceForm(s)
  {
    LetterType(s[0])
  }

  function FormHint(s: string): Hint
    requires IsPieceForm(s)
  {
    if IsShortForm(s) then NoHint else if IsFile(s[1]) then FileHint(FileCol(s[1])) else RankHint(RankRow(s[1]))
  }

  function FormTarget(s: string): Pos
    requires IsPieceForm(s)
  {
    if IsShortForm(s) then Pos(RankRow(s[2]), FileCol(s[1])) else Pos(RankRow(s[3]), FileCol(s[2]))
  }

  /** A piece-letter form parses to the single candidate if there is exactly one, and fails otherwise. */
  lemma PieceFormParse(p: Position, s: string)
    requires IsPieceForm(s)
    ensures var e := FormTarget(s);
      Parse(p, s) == Unique(Candidates(p, FormType(s), FormHint(s), e.row, e.col), e.row, e.col)
  {
    assert !IsFullForm(s);
  }

  /** A square is in the candidate list iff it is a candidate. */
  lemma CandidatesIff(p: Position, t: PieceType, h: Hint, er: int, ec: int, r: int, c: int)
    ensures Pos(r, c) in Candidates(p, t, h, er, ec) <==> InBounds(r, c) && IsCandidate(p, t, h, er, ec, r, c)
  {
    SquaresFromIff(CandidateTest(p, t, h, er, ec), 0, 0, r, c);
  }

  /** Square a is on the board and passes the test. */
  ghost predicate Kept(keep: (int, int) -> bool, a: Pos)
  {
    InBounds(a.row, a.col) && keep(a.row, a.col)
  }

  /** Every square the scan lists passes the test. */
  lemma ScanMember(keep: (int, int) -> bool, i: nat)
    requires i < |SquaresFrom(keep, 0, 0)|
    ensures Kept(keep, SquaresFrom(keep, 0, 0)[i])
  {
    var cs := SquaresFrom(keep, 0, 0);
    assert cs[i] in cs;
    SquaresFromIff(keep, 0, 0, cs[i].row, cs[i].col);
  }

  /** Every square that passes the test is listed. */
  lemma ScanComplete(keep: (int, int) -> bool, a: Pos)
    requires Kept(keep, a)
    ensures a in SquaresFrom(keep, 0, 0)
  {
    SquaresFromIff(keep, 0, 0, a.row, a.col);
  }

  lemma ScanFirstTwo(keep: (int, int) -> bool, r0: int, c0: int)
    requires 0 <= r0 <= 8 && 0 <= c0 <= 8
    requires |SquaresFrom(keep, r0, c0)| >= 2
    ensures SquaresFrom(keep, r0, c0)[0] != SquaresFrom(keep, r0, c0)[1]
  {
    ScanHeadUnique(keep, r0, c0);
    var all := SquaresFrom(keep, r0, c0);
    assert all[1] == all[1..][0];
  }


  /** A scan names a single square iff exactly one square passes; otherwise none passes or two different ones do. */
  lemma UniqueScan(keep: (int, int) -> bool, er: int, ec: int)
    ensures var u := Unique(SquaresFrom(keep, 0, 0), er, ec);
      u.Some? ==>
        u.value.endRow == er && u.value.endCol == ec && Kept(keep, Pos(u.value.startRow, u.value.startCol)) &&
        forall a :: Kept(keep, a) ==> a == Pos(u.value.startRow, u.value.startCol)
    ensures Unique(SquaresFrom(keep, 0, 0), er, ec).None? <==>
      (forall a :: !Kept(keep, a)) || exists a, b :: Kept(keep, a) && Kept(keep, b) && a != b
  {
    var cs := SquaresFrom(keep, 0, 0);
    if |cs| == 1 {
      var x := cs[0];
      assert Unique(cs, er, ec) == Some(Coords(x.row, x.col, er, ec));
      ScanMember(keep, 0);
      assert cs == [x];
      forall a | Kept(keep, a) ensures a == x {
        ScanComplete(keep, a);
      }
    } else if |cs| == 0 {
      assert Unique(cs, er, ec) == None;
      forall a | Kept(keep, a) ensures false {
        ScanComplete(keep, a);
      }
    } else {
      assert Unique(cs, er, ec) == None;
      ScanFirstTwo(keep, 0, 0);
      ScanMember(keep, 0);
      ScanMember(keep, 1);
      assert Kept(keep, cs[0]) && Kept(keep, cs[1]) && cs[0] != cs[1];
    }
  }

  /**
   * A piece-letter form names a source iff exactly one own piece of that type (matching the file or
   * rank hint) can legally reach the target; that source is then the only such piece. With no such
   * piece, or with two different ones, the parse fails.
   */
  lemma PieceFormUnique(p: Position, s: string)
    requires IsPieceForm(s)
    ensures var t, h, e := FormType(s), FormHint(s), FormTarget(s);
      Parse(p, s).Some? ==>
        var m := Parse(p, s).value;
        m.endRow == e.row && m.endCol == e.col && InBounds(m.startRow, m.startCol) &&
        IsCandidate(p, t, h, e.row, e.col, m.startRow, m.startCol) &&
        forall r, c :: InBounds(r, c) && IsCandidate(p, t, h, e.row, e.col, r, c) ==> r == m.startRow && c == m.startCol
    ensures var t, h, e := FormType(s), FormHint(s), FormTarget(s);
      Parse(p, s).None? <==>
        (forall r, c :: InBounds(r, c) ==> !IsCandidate(p, t, h, e.row, e.col, r, c)) ||
        exists a: Pos, b: Pos :: a != b && InBounds(a.row, a.col) && InBounds(b.row, b.col) &&
          IsCandidate(p, t, h, e.row, e.col, a.row, a.col) && IsCandidate(p, t, h, e.row, e.col, b.row, b.col)
  {
    var e := FormTarget(s);
    PieceFormParse(p, s);
    UniqueCandidateFound(p, FormType(s), FormHint(s), e.row, e.col);
    UniqueCandidateMissing(p, FormType(s), FormHint(s), e.row, e.col);
  }

  /** A source named by the candidate list is a candidate, and the only one. */
  lemma UniqueCandidateFound(p: Position, t: PieceType, h: Hint, er: int, ec: int)
    ensures var u := Unique(Candidates(p, t, h, er, ec), er, ec);
      u.Some? ==>
        u.value.endRow == er && u.value.endCol == ec && InBounds(u.value.startRow, u.value.startCol) &&
        IsCandidate(p, t, h, er, ec, u.value.startRow, u.value.startCol) &&
        forall r, c :: InBounds(r, c) && IsCandidate(p, t, h, er, ec, r, c) ==> r == u.value.startRow && c == u.value.startCol
  {
    var keep := CandidateTest(p, t, h, er, ec);
    UniqueScan(keep, er, ec);
    var u := Unique(Candidates(p, t, h, er, ec), er, ec);
    if u.Some? {
      var a := Pos(u.value.startRow, u.value.startCol);
      assert Kept(keep, a);
      forall r, c | InBounds(r, c) && IsCandidate(p, t, h, er, ec, r, c) ensures r == a.row && c == a.col {
        assert Kept(keep, Pos(r, c));
      }
    }
  }

  /** The candidate list names no source iff no candidate exists or two different ones do. */
  lemma UniqueCandidateMissing(p: Position, t: PieceType, h: Hint, er: int, ec: int)
    ensures Unique(Candidates(p, t, h, er, ec), er, ec).None? <==>
        (forall r, c :: InBounds(r, c) ==> !IsCandidate(p, t, h, er, ec, r, c)) ||
        exists a: Pos, b: Pos :: a != b && InBounds(a.row, a.col) && InBounds(b.row, b.col) &&
          IsCandidate(p, t, h, er, ec, a.row, a.col) && IsCandidate(p, t, h, er, ec, b.row, b.col)
  {
    var keep := CandidateTest(p, t, h, er, ec);
    UniqueScan(keep, er, ec);
    assert forall a: Pos :: Kept(keep, a) == (InBounds(a.row, a.col) && IsCandidate(p, t, h, er, ec, a.row, a.col));
    assert forall r, c :: InBounds(r, c) ==> (Kept(keep, Pos(r, c)) <==> IsCandidate(p, t, h, er, ec, r, c));
  }

  /** A candidate is an own piece of the named type, matching the hint, that passes isValidMoveAttempt. */
  lemma CandidateMeaning(p: Position, t: PieceType, h: Hint, er: int, ec: int, r: int, c: int)
    requires InBounds(r, c) && IsCandidate(p, t, h, er, ec, r, c)
    ensures At(p.grid, r, c) == Some(Piece(t, p.turn)) && HintMatches(h, r, c) && MoveAttempt(p, r, c, er, ec)
  {
  }

  /** Move m comes at or after (sr, sc, er, ec) in the order of the four nested loops. */
  predicate NotBeforeMove(m: BoardMove, sr: int, sc: int, er: int, ec: int)
  {
    m.startRow > sr || (m.startRow == sr &&
      (m.startCol > sc || (m.startCol == sc &&
        (m.endRow > er || (m.endRow == er && m.endCol >= ec)))))
  }

  /** The three loop wrap-arounds: the enumeration moves on to the next start row, start column or end row. */
  lemma MovesFromSkip(legal: BoardMove -> bool, sr: int, sc: int, er: int, ec: int)
    requires 0 <= sr < 8 && 0 <= sc <= 8 && 0 <= er <= 8 && 0 <= ec <= 8
    ensures sc == 8 ==> MovesFrom(legal, sr, sc, er, ec) == MovesFrom(legal, sr + 1, 0, 0, 0)
    ensures sc < 8 && er == 8 ==> MovesFrom(legal, sr, sc, er, ec) == MovesFrom(legal, sr, sc + 1, 0, 0)
    ensures sc < 8 && er < 8 && ec == 8 ==> MovesFrom(legal, sr, sc, er, ec) == MovesFrom(legal, sr, sc, er + 1, 0)
  {
  }

  lemma MovesFromStep(legal: BoardMove -> bool, sr: int, sc: int, er: int, ec: int, m: BoardMove)
    requires 0 <= sr < 8 && 0 <= sc < 8 && 0 <= er < 8 && 0 <= ec < 8
    ensures m in MovesFrom(legal, sr, sc, er, ec) <==>
      (m == Coords(sr, sc, er, ec) && legal(m)) || m in MovesFrom(legal, sr, sc, er, ec + 1)
  {
  }

  /** The enumeration keeps exactly the moves at or after its start that pass the test. */
  lemma {:induction false} MovesFromIff(legal: BoardMove -> bool, sr: int, sc: int, er: int, ec: int, m: BoardMove)
    requires 0 <= sr <= 8 && 0 <= sc <= 8 && 0 <= er <= 8 && 0 <= ec <= 8
    ensures m in MovesFrom(legal, sr, sc, er, ec) <==> NotBeforeMove(m, sr, sc, er, ec) && legal(m)
    decreases 8 - sr, 8 - sc, 8 - er, 8 - ec
  {
    if sr == 8 {
      assert MovesFrom(legal, sr, sc, er, ec) == [];
    } else if sc == 8 {
      MovesFromIff(legal, sr + 1, 0, 0, 0, m);
      MovesFromSkip(legal, sr, sc, er, ec);
      assert NotBeforeMove(m, sr, sc, er, ec) == NotBeforeMove(m, sr + 1, 0, 0, 0);
    } else if er == 8 {
      MovesFromIff(legal, sr, sc + 1, 0, 0, m);
      MovesFromSkip(legal, sr, sc, er, ec);
      assert NotBeforeMove(m, sr, sc, er, ec) == NotBeforeMove(m, sr, sc + 1, 0, 0);
    } else if ec == 8 {
      MovesFromIff(legal, sr, sc, er + 1, 0, m);
      MovesFromSkip(legal, sr, sc, er, ec);
      assert NotBeforeMove(m, sr, sc, er, ec) == NotBeforeMove(m, sr, sc, er + 1, 0);
    } else {
      MovesFromIff(legal, sr, sc, er, ec + 1, m);
      MovesFromStep(legal, sr, sc, er, ec, m);
      assert NotBeforeMove(m, sr, sc, er, ec) == (m == Coords(sr, sc, er, ec) || NotBeforeMove(m, sr, sc, er, ec + 1));
    }
  }

  /** A start square none of whose moves passes the test contributes nothing to the enumeration. */
  lemma {:induction false} MovesFromSkipSquare(legal: BoardMove -> bool, sr: int, sc: int, er: int, ec: int)
    requires 0 <= sr < 8 && 0 <= sc < 8 && 0 <= er <= 8 && 0 <= ec <= 8
    requires forall m: BoardMove :: m.startRow == sr && m.startCol == sc ==> !legal(m)
    ensures MovesFrom(legal, sr, sc, er, ec) == MovesFrom(legal, sr, sc + 1, 0, 0)
    decreases 8 - er, 8 - ec
  {
    if er == 8 {
    } else if ec == 8 {
      MovesFromSkipSquare(legal, sr, sc, er + 1, 0);
    } else {
      var m: BoardMove := Coords(sr, sc, er, ec);
      assert !legal(m);
      MovesFromSkipSquare(legal, sr, sc, er, ec + 1);
    }
  }

  /** No move passes isValidMoveAttempt from a square without a piece of the side to move. */
  lemma NoMovesFromForeignSquare(p: Position, sr: int, sc: int)
    requires InBounds(sr, sc)
    requires At(p.grid, sr, sc).None? || At(p.grid, sr, sc).value.color != p.turn
    ensures forall m: BoardMove :: m.startRow == sr && m.startCol == sc ==> !Legal(p)(m)
  {
  }

  /** Rendering a concatenation renders each part. */
  lemma {:induction false} RendersAppend(p: Position, a: seq<BoardMove>, b: seq<BoardMove>)
    ensures Renders(p, a + b) == Renders(p, a) + Renders(p, b)
  {
    if a == [] {
      assert a + b == b;
    } else {
      assert (a + b)[1..] == a[1..] + b;
      RendersAppend(p, a[1..], b);
    }
  }

  /** One step of the candidate scan: the square (r, c) is appended when it passes the test. */
  lemma CandidateScanStep(keep: (int, int) -> bool, acc: seq<Pos>, r: int, c: int)
    requires 0 <= r < 8 && 0 <= c < 8
    ensures acc + SquaresFrom(keep, r, c) == (if keep(r, c) then acc + [Pos(r, c)] else acc) + SquaresFrom(keep, r, c + 1)
  {
    var rest := SquaresFrom(keep, r, c + 1);
    if keep(r, c) {
      assert acc + ([Pos(r, c)] + rest) == (acc + [Pos(r, c)]) + rest;
    } else {
      assert [] + rest == rest;
    }
  }

  /** One step of findRandomLegalMove's inner loop: the move (sr, sc, er, ec) is rendered and appended when it passes the test. */
  lemma EnumerationStep(p: Position, legal: BoardMove -> bool, acc: seq<string>, sr: int, sc: int, er: int, ec: int)
    requires 0 <= sr < 8 && 0 <= sc < 8 && 0 <= er < 8 && 0 <= ec < 8
    ensures var m: BoardMove := Coords(sr, sc, er, ec);
      acc + Renders(p, MovesFrom(legal, sr, sc, er, ec)) ==
      (if legal(m) then acc + [Render(p, m)] else acc) + Renders(p, MovesFrom(legal, sr, sc, er, ec + 1))
  {
    var m: BoardMove := Coords(sr, sc, er, ec);
    var rest := MovesFrom(legal, sr, sc, er, ec + 1);
    if legal(m) {
      var ms := [m] + rest;
      assert MovesFrom(legal, sr, sc, er, ec) == ms;
      assert ms[0] == m && ms[1..] == rest;
      assert Renders(p, ms) == [Render(p, m)] + Renders(p, rest);
      assert acc + ([Render(p, m)] + Renders(p, rest)) == (acc + [Render(p, m)]) + Renders(p, rest);
    } else {
      assert MovesFrom(legal, sr, sc, er, ec) == [] + rest == rest;
    }
  }

  /** The moves findRandomLegalMove renders. */
  function LegalList(p: Position): seq<BoardMove>
  {
    MovesFrom(Legal(p), 0, 0, 0, 0)
  }

  lemma LegalListIff(p: Position, m: BoardMove)
    ensures m in LegalList(p) <==> MoveAttempt(p, m.startRow, m.startCol, m.endRow, m.endCol)
  {
    MovesFromIff(Legal(p), 0, 0, 0, 0, m);
  }

  lemma {:induction false} RendersIff(p: Position, ms: seq<BoardMove>, s: string)
    ensures s in Renders(p, ms) <==> exists m :: m in ms && s == Render(p, m)
  {
    if ms != [] {
      RendersIff(p, ms[1..], s);
      if s != Render(p, ms[0]) && exists m :: m in ms && s == Render(p, m) {
        var m :| m in ms && s == Render(p, m);
        assert m in ms[1..];
      }
    }
  }

  /** The enumeration lists exactly the renderings of the moves that pass isValidMoveAttempt. */
  lemma LegalMovesIff(p: Position, s: string)
    ensures s in LegalMoves(p) <==>
      exists m: BoardMove :: MoveAttempt(p, m.startRow, m.startCol, m.endRow, m.endCol) && s == Render(p, m)
  {
    RendersIff(p, LegalList(p), s);
    if s in LegalMoves(p) {
      var m :| m in LegalList(p) && s == Render(p, m);
      LegalListIff(p, m);
    }
    if exists m: BoardMove :: MoveAttempt(p, m.startRow, m.startCol, m.endRow, m.endCol) && s == Render(p, m) {
      var m: BoardMove :| MoveAttempt(p, m.startRow, m.startCol, m.endRow, m.endCol) && s == Render(p, m);
      LegalListIff(p, m);
    }
  }

  /** The enumeration is empty iff no move at all passes isValidMoveAttempt. */
  lemma LegalMovesEmptyIff(p: Position)
    ensures |LegalMoves(p)| == 0 <==>
      forall m: BoardMove :: !MoveAttempt(p, m.startRow, m.startCol, m.endRow, m.endCol)
  {
    if |LegalMoves(p)| > 0 {
      LegalMovesIff(p, LegalMoves(p)[0]);
    }
    forall m: BoardMove | MoveAttempt(p, m.startRow, m.startCol, m.endRow, m.endCol)
      ensures |LegalMoves(p)| > 0
    {
      LegalMovesIff(p, Render(p, m));
    }
  }

  /** move() on a full-form string executes the move it names. */
  lemma MoveNotationFullForm(p: Position, s: string)
    requires IsFullForm(s)
    ensures var m := Parse(p, s).value; MoveNotation(p, s) == MovePiece(p, m.startRow, m.startCol, m.endRow, m.endCol)
  {
    assert !IsKingsideCastle(s) && !IsQueensideCastle(s);
  }

  /** move() on O-O / O-O-O moves the side to move's king from its home square two columns over. */
  lemma MoveNotationCastle(p: Position, s: string)
    requires IsKingsideCastle(s) || IsQueensideCastle(s)
    ensures MoveNotation(p, s) ==
      MovePiece(p, BackRow(p.turn), 4, BackRow(p.turn), if IsKingsideCastle(s) then 6 else 2)
  {
  }

  /** A listed castling move is rendered O-O or O-O-O, and move() on that string executes it. */
  lemma PlayBackCastle(p: Position, m: BoardMove)
    requires MoveAttempt(p, m.startRow, m.startCol, m.endRow, m.endCol)
    requires At(p.grid, m.startRow, m.startCol).Some?
    requires IsCastlingMove(At(p.grid, m.startRow, m.startCol).value, m.startRow, m.startCol, m.endRow, m.endCol)
    requires m.startRow == BackRow(p.turn)
    ensures var s := Render(p, m);
      (s == "O-O" <==> m.endCol == 6) && (s == "O-O-O" <==> m.endCol == 2) &&
      MoveNotation(p, s) == MovePiece(p, m.startRow, m.startCol, m.endRow, m.endCol)
  {
    CastlingMoveAccepted(p, m.startRow, m.startCol, m.endRow, m.endCol);
    CastlePlayback(p, m);
  }

  /** A king move from column 4 of the mover's back row to column 2 or 6 renders as castling and replays. */
  lemma CastlePlayback(p: Position, m: BoardMove)
    requires m.startRow == BackRow(p.turn) && m.endRow == m.startRow && m.startCol == 4 && (m.endCol == 2 || m.endCol == 6)
    requires At(p.grid, m.startRow, m.startCol).Some? && At(p.grid, m.startRow, m.startCol).value.kind == King
    ensures var s := Render(p, m);
      (s == "O-O" <==> m.endCol == 6) && (s == "O-O-O" <==> m.endCol == 2) &&
      MoveNotation(p, s) == MovePiece(p, m.startRow, m.startCol, m.endRow, m.endCol)
  {
    var s := Render(p, m);
    assert s == (if m.endCol == 6 then "O-O" else "O-O-O");
    CastleStrings();
    MoveNotationCastle(p, s);
  }

  /** The two castling strings differ, and each names its own side. */
  lemma CastleStrings()
    ensures "O-O" != "O-O-O" && IsKingsideCastle("O-O") && !IsKingsideCastle("O-O-O") && IsQueensideCastle("O-O-O")
  {
    assert |"O-O"| != |"O-O-O"|;
    assert |"0-0"| != |"O-O-O"|;
  }

  /** Any other listed move is rendered as its coordinates, and move() on that string executes it. */
  lemma PlayBackCoords(p: Position, m: BoardMove)
    requires At(p.grid, m.startRow, m.startCol).None? ||
      !IsCastlingMove(At(p.grid, m.startRow, m.startCol).value, m.startRow, m.startCol, m.endRow, m.endCol)
    ensures IsFullForm(Render(p, m))
    ensures MoveNotation(p, Render(p, m)) == MovePiece(p, m.startRow, m.startCol, m.endRow, m.endCol)
  {
    RenderParse(p, m);
    MoveNotationFullForm(p, Render(p, m));
  }
}
