/**
 * The move notation of Board.java: parseAlgebraicNotation's five accepted forms, move()'s castling
 * shortcut, and the strings findRandomLegalMove produces for the moves it enumerates.
 */
module Notation {
  import opened Util
  import opened Pieces
  import opened Positions
  import opened Rules
  import opened Execution

  /** The int[]{startRow, startCol, endRow, endCol} a successful parse returns. */
  datatype Coords = Coords(startRow: int, startCol: int, endRow: int, endCol: int)

  /** How a piece-letter form restricts the source square. */
  datatype Hint = NoHint | FileHint(col: int) | RankHint(row: int)

  predicate IsFile(ch: char) { 'a' <= ch <= 'h' }
  predicate IsRank(ch: char) { '1' <= ch <= '8' }
  predicate IsPieceLetter(ch: char) { ch in "NBRQK" }

  /** file - 'a'. */
  function FileCol(ch: char): int
  {
    ch as int - 'a' as int
  }

  /** 8 - Character.getNumericValue(rank). */
  function RankRow(ch: char): int
  {
    8 - (ch as int - '0' as int)
  }

  /** (char) ('a' + col). */
  function FileChar(col: int): (ch: char)
    requires 0 <= col < 8
    ensures IsFile(ch)
  {
    ('a' as int + col) as char
  }

  /** (char) ('1' + (7 - row)). */
  function RankChar(row: int): (ch: char)
    requires 0 <= row < 8
    ensures IsRank(ch)
  {
    ('1' as int + (7 - row)) as char
  }

  /** The piece type a move-form letter names. */
  function LetterType(ch: char): PieceType
    requires IsPieceLetter(ch)
  {
    match ch
    case 'N' => Knight
    case 'B' => Bishop
    case 'R' => Rook
    case 'Q' => Queen
    case 'K' => King
  }

  /** ^[a-h][1-8][a-h][1-8]$ */
  predicate IsFullForm(s: string)
  {
    |s| == 4 && IsFile(s[0]) && IsRank(s[1]) && IsFile(s[2]) && IsRank(s[3])
  }

  /** ^[NBRQK][a-h][a-h][1-8]$ */
  predicate IsFileForm(s: string)
  {
    |s| == 4 && IsPieceLetter(s[0]) && IsFile(s[1]) && IsFile(s[2]) && IsRank(s[3])
  }

  /** ^[NBRQK][1-8][a-h][1-8]$ */
  predicate IsRankForm(s: string)
  {
    |s| == 4 && IsPieceLetter(s[0]) && IsRank(s[1]) && IsFile(s[2]) && IsRank(s[3])
  }

  /** ^[NBRQK][a-h][1-8]$ */
  predicate IsShortForm(s: string)
  {
    |s| == 3 && IsPieceLetter(s[0]) && IsFile(s[1]) && IsRank(s[2])
  }

  predicate IsKingsideCastle(s: string) { s == "O-O" || s == "0-0" }
  predicate IsQueensideCastle(s: string) { s == "O-O-O" || s == "0-0-0" }

  predicate HintMatches(h: Hint, r: int, c: int)
  {
    match h
    case NoHint => true
    case FileHint(col) => c == col
    case RankHint(row) => r == row
  }

  /** A source square the piece-letter forms accept: an own piece of type t, matching the hint, moving legally. */
  predicate IsCandidate(p: Position, t: PieceType, h: Hint, er: int, ec: int, r: int, c: int)
    requires InBounds(r, c)
  {
    var sq := At(p.grid, r, c);
    sq.Some? && sq.value.color == p.turn && sq.value.kind == t && HintMatches(h, r, c) && MoveAttempt(p, r, c, er, ec)
  }

  /** The squares from (r, c) on, in the row-major order of the source's nested loops, that satisfy keep. */
  function SquaresFrom(keep: (int, int) -> bool, r: int, c: int): seq<Pos>
    requires 0 <= r <= 8 && 0 <= c <= 8
    decreases 8 - r, 8 - c
  {
    if r == 8 then []
    else if c == 8 then SquaresFrom(keep, r + 1, 0)
    else if keep(r, c) then [Pos(r, c)] + SquaresFrom(keep, r, c + 1)
    else SquaresFrom(keep, r, c + 1)
  }

  /** IsCandidate as a test on squares. */
  function CandidateTest(p: Position, t: PieceType, h: Hint, er: int, ec: int): (int, int) -> bool
  {
    (r, c) => InBounds(r, c) && IsCandidate(p, t, h, er, ec, r, c)
  }

  /** The candidate list the piece-letter forms build. */
  function Candidates(p: Position, t: PieceType, h: Hint, er: int, ec: int): seq<Pos>
  {
    SquaresFrom(CandidateTest(p, t, h, er, ec), 0, 0)
  }

  /** The source found, if exactly one candidate exists. */
  function Unique(cs: seq<Pos>, er: int, ec: int): Option<Coords>
  {
    if |cs| == 1 then Some(Coords(cs[0].row, cs[0].col, er, ec)) else None
  }

  /** parseAlgebraicNotation. */
  function Parse(p: Position, s: string): Option<Coords>
  {
    if |s| == 0 then None
    else if IsFullForm(s) then Some(Coords(RankRow(s[1]), FileCol(s[0]), RankRow(s[3]), FileCol(s[2])))
    else if IsFileForm(s) || IsRankForm(s) then
      var h := if IsFile(s[1]) then FileHint(FileCol(s[1])) else RankHint(RankRow(s[1]));
      var er, ec := RankRow(s[3]), FileCol(s[2]);
      Unique(Candidates(p, LetterType(s[0]), h, er, ec), er, ec)
    else if IsShortForm(s) then
      var er, ec := RankRow(s[2]), FileCol(s[1]);
      Unique(Candidates(p, LetterType(s[0]), NoHint, er, ec), er, ec)
    else None
  }

  /** move: the castling strings move the king from its home square, anything else goes through the parser. */
  function MoveNotation(p: Position, s: string): Outcome
  {
    if IsKingsideCastle(s) || IsQueensideCastle(s) then
      var row := BackRow(p.turn);
      MovePiece(p, row, 4, row, if IsKingsideCastle(s) then 6 else 2)
    else
      match Parse(p, s)
      case None => Outcome(Invalid, p)
      case Some(m) => MovePiece(p, m.startRow, m.startCol, m.endRow, m.endCol)
  }

  /** A move between two squares of the board. */
  type BoardMove = m: Coords | InBounds(m.startRow, m.startCol) && InBounds(m.endRow, m.endCol) witness Coords(0, 0, 0, 0)

  /** The string findRandomLegalMove lists for a move: O-O / O-O-O for castling, coordinates otherwise. */
  function Render(p: Position, m: BoardMove): string
  {
    var sq := At(p.grid, m.startRow, m.startCol);
    if sq.Some? && IsCastlingMove(sq.value, m.startRow, m.startCol, m.endRow, m.endCol) then
      (if m.endCol == 6 then "O-O" else "O-O-O")
    else
      [FileChar(m.startCol), RankChar(m.startRow), FileChar(m.endCol), RankChar(m.endRow)]
  }

  function Renders(p: Position, ms: seq<BoardMove>): seq<string>
  {
    if ms == [] then [] else [Render(p, ms[0])] + Renders(p, ms[1..])
  }

  /** The moves from (sr, sc, er, ec) on that satisfy legal, in the order of findRandomLegalMove's four nested loops. */
  function MovesFrom(legal: BoardMove -> bool, sr: int, sc: int, er: int, ec: int): seq<BoardMove>
    requires 0 <= sr <= 8 && 0 <= sc <= 8 && 0 <= er <= 8 && 0 <= ec <= 8
    decreases 8 - sr, 8 - sc, 8 - er, 8 - ec
  {
    if sr == 8 then []
    else if sc == 8 then MovesFrom(legal, sr + 1, 0, 0, 0)
    else if er == 8 then MovesFrom(legal, sr, sc + 1, 0, 0)
    else if ec == 8 then MovesFrom(legal, sr, sc, er + 1, 0)
    else
      var m: BoardMove := Coords(sr, sc, er, ec);
      if legal(m) then [m] + MovesFrom(legal, sr, sc, er, ec + 1)
      else MovesFrom(legal, sr, sc, er, ec + 1)
  }

  /** isValidMoveAttempt as a test on moves. */
  function Legal(p: Position): BoardMove -> bool
  {
    (m: BoardMove) => MoveAttempt(p, m.startRow, m.startCol, m.endRow, m.endCol)
  }

  /** The list of legal moves findRandomLegalMove draws from. */
  function LegalMoves(p: Position): seq<string>
  {
    Renders(p, MovesFrom(Legal(p), 0, 0, 0, 0))
  }
}
