/** Piece.java: the two enums and the immutable piece value with its display glyph. */
module Pieces {

  /** Piece.PieceType, in declaration order. */
  datatype PieceType = King | Queen | Rook | Bishop | Knight | Pawn

  /** Piece.PieceColor. */
  datatype PieceColor = White | Black

  /** A piece is a value: its type and colour are fixed when it is built and never change. */
  datatype Piece = Piece(kind: PieceType, color: PieceColor)

  /** PieceType.values(): the six types, each once, in declaration order. */
  function AllTypes(): (ts: seq<PieceType>)
    ensures |ts| == 6
    ensures forall i, j :: 0 <= i < j < |ts| ==> ts[i] != ts[j]
  {
    [King, Queen, Rook, Bishop, Knight, Pawn]
  }

  /** There is no type outside AllTypes(). */
  lemma TypeListed(t: PieceType)
    ensures t in AllTypes()
  {
    match t
    case King => assert AllTypes()[0] == t;
    case Queen => assert AllTypes()[1] == t;
    case Rook => assert AllTypes()[2] == t;
    case Bishop => assert AllTypes()[3] == t;
    case Knight => assert AllTypes()[4] == t;
    case Pawn => assert AllTypes()[5] == t;
  }

  /** PieceColor.values(): the two colours. */
  function AllColors(): (cs: seq<PieceColor>)
    ensures |cs| == 2 && cs[0] != cs[1]
  {
    [White, Black]
  }

  /** There is no colour outside AllColors(). */
  lemma ColorListed(c: PieceColor)
    ensures c in AllColors()
  {
    match c
    case White => assert AllColors()[0] == c;
    case Black => assert AllColors()[1] == c;
  }

  /** Every (colour, type) pair: the keys of the piece-count table. */
  function AllPieces(): set<Piece>
  {
    set t <- AllTypes(), c <- AllColors() :: Piece(t, c)
  }

  lemma PieceListed(p: Piece)
    ensures p in AllPieces()
  {
    TypeListed(p.kind);
    ColorListed(p.color);
  }

  function Opponent(c: PieceColor): (o: PieceColor)
    ensures o != c
  {
    if c == White then Black else White
  }

  /** The upper-case letter of a type: K, Q, R, B, N, P. */
  function Letter(t: PieceType): (ch: char)
    ensures 'A' <= ch <= 'Z'
  {
    match t
    case King => 'K'
    case Queen => 'Q'
    case Rook => 'R'
    case Bishop => 'B'
    case Knight => 'N'
    case Pawn => 'P'
  }

  predicate IsUpper(ch: char) { 'A' <= ch <= 'Z' }

  predicate IsLower(ch: char) { 'a' <= ch <= 'z' }

  function ToLower(ch: char): char
  {
    if IsUpper(ch) then (ch as int + 32) as char else ch
  }

  /** getAsciiChar: the one-character glyph printed for a piece. */
  function AsciiChar(p: Piece): (s: string)
    ensures |s| == 1
    ensures p.color == White ==> IsUpper(s[0])
    ensures p.color == Black ==> IsLower(s[0])
  {
    if p.color == White then [Letter(p.kind)] else [ToLower(Letter(p.kind))]
  }

  /** The black glyph is the white glyph in lower case. */
  lemma BlackGlyphIsLowerWhite(t: PieceType)
    ensures AsciiChar(Piece(t, Black)) == [ToLower(AsciiChar(Piece(t, White))[0])]
  {
  }

  /** Distinct pieces render as distinct glyphs, so the glyph identifies the piece. */
  lemma GlyphInjective(p: Piece, q: Piece)
    requires AsciiChar(p) == AsciiChar(q)
    ensures p == q
  {
  }
}
