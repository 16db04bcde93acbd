/**
 * Board setup in Board.java: the starting position built by the constructor, clearBoard, and
 * placePiece / canPlacePiece with their per-side caps. Every operation keeps the piece-count table
 * equal to the number of squares holding each (colour, type), and placement never exceeds a cap.
 */
module Setup {
  import opened Util
  import opened Pieces
  import opened Positions
  import opened Notation
  import opened Rules
  import opened Execution
  import opened ExecutionLemmas

  /** The most pieces of a type canPlacePiece lets one side have. */
  function Cap(t: PieceType): nat
  {
    match t
    case King => 1
    case Queen => 1
    case Rook => 2
    case Knight => 2
    case Bishop => 2
    case Pawn => 8
  }

  /** No side holds more of a type than its cap. */
  predicate WithinCaps(p: Position)
  {
    forall q :: q in AllPieces() ==> Get(p.counts, q) <= Cap(q.kind)
  }

  /** initializePieceCounts: every (colour, type) entry present and zero. */
  function ZeroCounts(): (m: map<Piece, int>)
    ensures m.Keys == AllPieces()
    ensures forall q :: q in m ==> m[q] == 0
  {
    map q | q in AllPieces() :: 0
  }

  /** The zero table is the true table of the empty board. */
  lemma ZeroCountsOfEmpty()
    ensures CountsOf(EmptyGrid()) == ZeroCounts()
  {
    forall q | q in AllPieces() ensures CountsOf(EmptyGrid())[q] == 0 {
      CountOfEmpty(EmptyGrid(), q);
    }
  }

  /** The types along a back rank, file a to file h. */
  function BackRankType(c: int): PieceType
    requires 0 <= c < 8
  {
    if c == 0 || c == 7 then Rook
    else if c == 1 || c == 6 then Knight
    else if c == 2 || c == 5 then Bishop
    else if c == 3 then Queen
    else King
  }

  /** setupInitialBoard: black on rows 0 and 1, white on rows 6 and 7, the rest empty. */
  function InitialSquare(r: int, c: int): Square
    requires InBounds(r, c)
  {
    if r == 0 then Some(Piece(BackRankType(c), Black))
    else if r == 1 then Some(Piece(Pawn, Black))
    else if r == 6 then Some(Piece(Pawn, White))
    else if r == 7 then Some(Piece(BackRankType(c), White))
    else None
  }

  function InitialGrid(): (g: Grid)
    ensures forall r, c :: InBounds(r, c) ==> At(g, r, c) == InitialSquare(r, c)
  {
    seq(64, i requires 0 <= i < 64 => InitialSquare(i / 8, i % 8))
  }

  /** The state the constructor leaves: the starting array, White to move, nothing moved, no target. */
  function InitialPosition(): Position
  {
    Position(InitialGrid(), White, NothingMoved, None, CountsOf(InitialGrid()))
  }

  /** clearBoard: empty squares, zero counts, no en-passant target, all flags reset; the turn is kept. */
  function ClearBoard(p: Position): (q: Position)
    ensures q.turn == p.turn
    ensures forall r, c :: InBounds(r, c) ==> At(q.grid, r, c) == None
    ensures q.flags == NothingMoved && q.ep == None
  {
    p.(grid := EmptyGrid(), counts := ZeroCounts(), ep := None, flags := NothingMoved)
  }

  /** A cleared board's table agrees with it and is within every cap. */
  lemma ClearBoardCounts(p: Position)
    ensures CountsAgree(ClearBoard(p)) && WithinCaps(ClearBoard(p))
  {
    ZeroCountsOfEmpty();
  }

  /** Within the caps, with a true table, a side has at most one king on the board. */
  lemma SingleKing(p: Position, kc: PieceColor)
    requires CountsAgree(p) && WithinCaps(p)
    ensures forall r1, c1, r2, c2 ::
      (InBounds(r1, c1) && InBounds(r2, c2) &&
       At(p.grid, r1, c1) == Some(Piece(King, kc)) && At(p.grid, r2, c2) == Some(Piece(King, kc))) ==>
      r1 == r2 && c1 == c2
  {
    var king := Piece(King, kc);
    PieceListed(king);
    assert Get(p.counts, king) == CountOf(p.grid, king) <= 1;
    forall r1, c1, r2, c2 | InBounds(r1, c1) && InBounds(r2, c2) &&
      At(p.grid, r1, c1) == Some(king) && At(p.grid, r2, c2) == Some(king)
      ensures r1 == r2 && c1 == c2
    {
      if Index(r1, c1) < Index(r2, c2) {
        CountOfTwo(p.grid, Index(r1, c1), Index(r2, c2), king);
      } else if Index(r2, c2) < Index(r1, c1) {
        CountOfTwo(p.grid, Index(r2, c2), Index(r1, c1), king);
      }
    }
  }

  /** On a board within the caps whose table agrees with it, an executed castling leaves the mover out of check. */
  lemma CastlingWithinCapsSafe(p: Position, sr: int, sc: int, er: int, ec: int)
    requires CountsAgree(p) && WithinCaps(p)
    requires InBounds(sr, sc) && InBounds(er, ec) && At(p.grid, sr, sc).Some?
    requires Executed(p, sr, sc, er, ec) && IsCastlingMove(At(p.grid, sr, sc).value, sr, sc, er, ec)
    ensures !InCheck(p.(grid := MovePiece(p, sr, sc, er, ec).next.grid), p.turn)
  {
    SingleKing(p, p.turn);
    CastledKingSafe(p, sr, sc, er, ec);
  }

  /** Row r of the starting array. */
  function InitialRow(r: int): (s: seq<Square>)
    requires 0 <= r < 8
    ensures |s| == 8 && forall c :: 0 <= c < 8 ==> s[c] == InitialSquare(r, c)
  {
    InitialGrid()[8 * r..8 * r + 8]
  }

  /** How many squares of row r of the starting array hold q. */
  function InitialRowCount(r: int, q: Piece): nat
    requires 0 <= r < 8
  {
    (if InitialSquare(r, 0) == Some(q) then 1 else 0) + (if InitialSquare(r, 1) == Some(q) then 1 else 0) +
    (if InitialSquare(r, 2) == Some(q) then 1 else 0) + (if InitialSquare(r, 3) == Some(q) then 1 else 0) +
    (if InitialSquare(r, 4) == Some(q) then 1 else 0) + (if InitialSquare(r, 5) == Some(q) then 1 else 0) +
    (if InitialSquare(r, 6) == Some(q) then 1 else 0) + (if InitialSquare(r, 7) == Some(q) then 1 else 0)
  }

  /** Counting over one more square of s. */
  lemma CountOfPrefixStep(s: seq<Square>, k: nat, q: Piece)
    requires k < |s|
    ensures CountOf(s[..k + 1], q) == CountOf(s[..k], q) + (if s[k] == Some(q) then 1 else 0)
  {
    assert s[..k + 1][..k] == s[..k];
  }

  /** A four-square stretch counted square by square. */
  lemma CountOfFour(s: seq<Square>, q: Piece)
    requires |s| == 4
    ensures CountOf(s, q) ==
      (if s[0] == Some(q) then 1 else 0) + (if s[1] == Some(q) then 1 else 0) +
      (if s[2] == Some(q) then 1 else 0) + (if s[3] == Some(q) then 1 else 0)
  {
    assert s[..0] == [];
    CountOfPrefixStep(s, 0, q);
    CountOfPrefixStep(s, 1, q);
    CountOfPrefixStep(s, 2, q);
    CountOfPrefixStep(s, 3, q);
    assert s[..4] == s;
  }

  /** An eight-square row counted square by square. */
  lemma CountOfEight(s: seq<Square>, q: Piece)
    requires |s| == 8
    ensures CountOf(s, q) ==
      (if s[0] == Some(q) then 1 else 0) + (if s[1] == Some(q) then 1 else 0) +
      (if s[2] == Some(q) then 1 else 0) + (if s[3] == Some(q) then 1 else 0) +
      (if s[4] == Some(q) then 1 else 0) + (if s[5] == Some(q) then 1 else 0) +
      (if s[6] == Some(q) then 1 else 0) + (if s[7] == Some(q) then 1 else 0)
  {
    assert s == s[..4] + s[4..];
    CountOfAppend(s[..4], s[4..], q);
    CountOfFour(s[..4], q);
    CountOfFour(s[4..], q);
  }

  lemma InitialRowCounted(r: int, q: Piece)
    requires 0 <= r < 8
    ensures CountOf(InitialRow(r), q) == InitialRowCount(r, q)
  {
    CountOfEight(InitialRow(r), q);
  }

  /** The one row of the starting array on which q stands. */
  function HomeRow(q: Piece): int
  {
    match (q.kind, q.color)
    case (Pawn, Black) => 1
    case (Pawn, White) => 6
    case (_, Black) => 0
    case (_, White) => 7
  }

  /** Row r of the starting array holds q no more often than its cap, and not at all off its home row. */
  lemma InitialRowWithin(r: int, q: Piece)
    requires 0 <= r < 8
    ensures InitialRowCount(r, q) <= (if r == HomeRow(q) then Cap(q.kind) else 0)
  {
  }

  /** How many squares of the first k rows of the starting array hold q. */
  function InitialRowsCount(k: int, q: Piece): nat
    requires 0 <= k <= 8
  {
    if k == 0 then 0 else InitialRowsCount(k - 1, q) + InitialRowCount(k - 1, q)
  }

  lemma PrefixSplit(g: seq<Square>, i: nat, j: nat)
    requires i <= j <= |g|
    ensures g[..j] == g[..i] + g[i..j]
  {
  }

  /** The first k rows of the starting array hold q as often as their row counts add up to. */
  lemma {:induction false} InitialRowsCounted(k: int, q: Piece)
    requires 0 <= k <= 8
    ensures CountOf(InitialGrid()[..8 * k], q) == InitialRowsCount(k, q)
  {
    if k == 0 {
      assert InitialGrid()[..0] == [];
    } else {
      var g := InitialGrid();
      PrefixSplit(g, 8 * (k - 1), 8 * k);
      CountOfAppend(g[..8 * (k - 1)], InitialRow(k - 1), q);
      InitialRowCounted(k - 1, q);
      InitialRowsCounted(k - 1, q);
    }
  }

  /** The first k rows hold q at most its cap, and not at all before its home row. */
  lemma {:induction false} InitialRowsWithin(k: int, q: Piece)
    requires 0 <= k <= 8
    ensures InitialRowsCount(k, q) <= (if HomeRow(q) < k then Cap(q.kind) else 0)
  {
    if k > 0 {
      InitialRowsWithin(k - 1, q);
      InitialRowWithin(k - 1, q);
    }
  }

  /** The starting array holds each piece no more often than its cap. */
  lemma InitialCount(q: Piece)
    ensures CountOf(InitialGrid(), q) <= Cap(q.kind)
  {
    InitialRowsCounted(8, q);
    assert InitialGrid()[..64] == InitialGrid();
    InitialRowsWithin(8, q);
  }

  /** The starting position is within every cap, and its table agrees with its board. */
  lemma InitialWithinCaps()
    ensures CountsAgree(InitialPosition()) && WithinCaps(InitialPosition())
  {
    forall q | q in AllPieces() ensures Get(InitialPosition().counts, q) <= Cap(q.kind) {
      InitialCount(q);
    }
  }

  /** The letters PIECE_PLACEMENT_PATTERN accepts first. */
  predicate IsPlacementLetter(ch: char)
  {
    ch in "NBRQKPRQnbrqkprq"
  }

  /** ^[NBRQKPRQnbrqkprq][a-h][1-8]$ */
  predicate IsPlacementForm(s: string)
  {
    |s| == 3 && IsPlacementLetter(s[0]) && IsFile(s[1]) && IsRank(s[2])
  }

  /** The type named by a lower-cased placement letter. */
  function LowerLetterType(ch: char): PieceType
    requires ch in "pnbrqk"
  {
    match ch
    case 'p' => Pawn
    case 'n' => Knight
    case 'b' => Bishop
    case 'r' => Rook
    case 'q' => Queen
    case 'k' => King
  }

  /** The piece and square a placement string names. */
  datatype Placement = Placement(piece: Piece, row: int, col: int)

  /** placePiece's decoding: upper case means White, the lower-cased letter gives the type. */
  function ParsePlacement(s: string): (r: Option<Placement>)
    ensures r.Some? <==> IsPlacementForm(s)
    ensures r.Some? ==> InBounds(r.value.row, r.value.col)
  {
    if !IsPlacementForm(s) then None
    else
      var color := if IsUpper(s[0]) then White else Black;
      Some(Placement(Piece(LowerLetterType(ToLower(s[0])), color), RankRow(s[2]), FileCol(s[1])))
  }

  /** The placement string of a piece on a square: its glyph, then the square. */
  function PlacementString(q: Piece, r: int, c: int): string
    requires InBounds(r, c)
  {
    AsciiChar(q) + [FileChar(c), RankChar(r)]
  }

  /** Writing a piece's glyph and square and decoding it again gives back the piece and the square. */
  lemma PlacementRoundTrip(q: Piece, r: int, c: int)
    requires InBounds(r, c)
    ensures ParsePlacement(PlacementString(q, r, c)) == Some(Placement(q, r, c))
  {
    var s := PlacementString(q, r, c);
    assert s[1] == FileChar(c) && s[2] == RankChar(r);
    assert RankRow(RankChar(r)) == r && FileCol(FileChar(c)) == c;
    match q.kind
    case King => assert IsPlacementLetter(s[0]);
    case Queen => assert IsPlacementLetter(s[0]);
    case Rook => assert IsPlacementLetter(s[0]);
    case Bishop => assert IsPlacementLetter(s[0]);
    case Knight => assert IsPlacementLetter(s[0]);
    case Pawn => assert IsPlacementLetter(s[0]);
  }

  /** canPlacePiece: re-placing the same piece is always allowed; otherwise the side must be under its cap. */
  function CanPlace(p: Position, q: Piece, r: int, c: int): (ok: bool)
    requires InBounds(r, c)
    ensures ok <==> At(p.grid, r, c) == Some(q) || Get(p.counts, q) < Cap(q.kind)
  {
    if At(p.grid, r, c) == Some(q) then true
    else Get(p.counts, q) < Cap(q.kind)
  }

  /** placePiece: the result and the new state. A refused or malformed placement changes nothing. */
  function PlacePiece(p: Position, s: string): (bool, Position)
  {
    match ParsePlacement(s)
    case None => (false, p)
    case Some(pl) =>
      var q, r, c := pl.piece, pl.row, pl.col;
      if !CanPlace(p, q, r, c) then (false, p)
      else
        var was := At(p.grid, r, c);
        var counts := if was.Some? && was.value != q then Bump(p.counts, was.value, -1) else p.counts;
        var counts' := if was.None? || was.value != q then Bump(counts, q, 1) else counts;
        (true, p.(grid := p.grid[Index(r, c) := Some(q)], counts := counts'))
  }

  /**
   * The effect of placePiece: it succeeds iff the string is well formed and the cap allows it; then the
   * named square holds the named piece and nothing else of the position changes.
   */
  lemma PlacePieceEffect(p: Position, s: string)
    ensures var (ok, next) := PlacePiece(p, s);
      (ok <==> (ParsePlacement(s).Some? &&
                CanPlace(p, ParsePlacement(s).value.piece, ParsePlacement(s).value.row, ParsePlacement(s).value.col))) &&
      (!ok ==> next == p) &&
      (ok ==> var pl := ParsePlacement(s).value;
        At(next.grid, pl.row, pl.col) == Some(pl.piece) &&
        (forall r, c :: InBounds(r, c) && (r, c) != (pl.row, pl.col) ==> At(next.grid, r, c) == At(p.grid, r, c)) &&
        next.turn == p.turn && next.flags == p.flags && next.ep == p.ep)
  {
    match ParsePlacement(s)
    case None =>
    case Some(pl) =>
      if CanPlace(p, pl.piece, pl.row, pl.col) {
        var next := PlacePiece(p, s).1;
        assert next.grid == p.grid[Index(pl.row, pl.col) := Some(pl.piece)];
        forall r, c | InBounds(r, c) && (r, c) != (pl.row, pl.col) ensures At(next.grid, r, c) == At(p.grid, r, c) {
          assert Index(r, c) != Index(pl.row, pl.col);
        }
      }
  }

  /** placePiece keeps the piece-count table equal to the board. */
  lemma PlacePreservesCounts(p: Position, s: string)
    requires CountsAgree(p)
    ensures CountsAgree(PlacePiece(p, s).1)
  {
    match ParsePlacement(s)
    case None =>
    case Some(pl) =>
      var q, r, c := pl.piece, pl.row, pl.col;
      if CanPlace(p, q, r, c) {
        var was := At(p.grid, r, c);
        var next := PlacePiece(p, s).1;
        CountsOfUpdate(p.grid, Index(r, c), Some(q));
        if was == Some(q) {
          assert p.grid[Index(r, c) := Some(q)] == p.grid;
          PieceListed(q);
          var m := CountsOf(p.grid);
          assert Recount(m, was, Some(q)) == m by {
            assert Bump(Bump(m, q, -1), q, 1) == m;
          }
        }
      }
  }

  /** placePiece never takes a side past a cap: a piece is added only while its count is under the cap. */
  lemma PlacePreservesCaps(p: Position, s: string)
    requires WithinCaps(p)
    ensures WithinCaps(PlacePiece(p, s).1)
  {
    match ParsePlacement(s)
    case None =>
    case Some(pl) =>
      var q, r, c := pl.piece, pl.row, pl.col;
      if CanPlace(p, q, r, c) {
        var was := At(p.grid, r, c);
        var next := PlacePiece(p, s).1;
        forall o | o in AllPieces() ensures Get(next.counts, o) <= Cap(o.kind) {
          if was != Some(q) {
            assert Get(p.counts, q) < Cap(q.kind);
          }
        }
      }
  }
}
