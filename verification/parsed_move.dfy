/** ParsedMove.java: the move-descriptor record and its two constructors. */
module ParsedMoves {
  import opened Util
  import opened Pieces

  /** Public fields of ParsedMove; `promotionType` is null (None) unless set. */
  datatype ParsedMove = ParsedMove(
    startRow: int, startCol: int, endRow: int, endCol: int,
    promotionType: Option<PieceType>,
    isKingsideCastle: bool,
    isQueensideCastle: bool)

  /** The four-argument constructor: coordinates as given, defaults for the rest. */
  function NewParsedMove(startRow: int, startCol: int, endRow: int, endCol: int): (m: ParsedMove)
    ensures m.startRow == startRow && m.startCol == startCol
    ensures m.endRow == endRow && m.endCol == endCol
    ensures m.promotionType == None
    ensures !m.isKingsideCastle && !m.isQueensideCastle
  {
    ParsedMove(startRow, startCol, endRow, endCol, None, false, false)
  }

  /** The six-argument constructor: delegates to the four-argument one, then sets both castle flags. */
  function NewCastlingMove(startRow: int, startCol: int, endRow: int, endCol: int,
                           isKingsideCastle: bool, isQueensideCastle: bool): (m: ParsedMove)
    ensures m.startRow == startRow && m.startCol == startCol
    ensures m.endRow == endRow && m.endCol == endCol
    ensures m.promotionType == None
    ensures m.isKingsideCastle == isKingsideCastle && m.isQueensideCastle == isQueensideCastle
  {
    NewParsedMove(startRow, startCol, endRow, endCol)
      .(isKingsideCastle := isKingsideCastle, isQueensideCastle := isQueensideCastle)
  }
}
