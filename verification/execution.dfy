/**
 * Executing a move (movePiece) and completing a promotion (finalizePromotion) in Board.java, as
 * functions from the position before to the result code and the position after.
 */
module Execution {
  import opened Util
  import opened Pieces
  import opened Positions
  import opened Rules
  import RulesLemmas

  /** Board.MoveResult. */
  datatype MoveResult = Valid | Invalid | PromotionPending

  /** What movePiece returns together with the state it leaves behind. */
  datatype Outcome = Outcome(result: MoveResult, next: Position)

  /** switchTurn. */
  function SwitchTurn(p: Position): (q: Position)
    ensures q.turn != p.turn && q.(turn := p.turn) == p
  {
    p.(turn := Opponent(p.turn))
  }

  /** Row of a side's back rank: 7 (rank 1) for white, 0 (rank 8) for black. */
  function BackRow(c: PieceColor): int
  {
    if c == White then 7 else 0
  }

  /** Row a pawn of this colour promotes on. */
  function LastRow(c: PieceColor): int
  {
    if c == White then 0 else 7
  }

  /** The king moves two columns along its row: movePiece then also moves the rook. */
  predicate IsCastlingMove(mover: Piece, sr: int, sc: int, er: int, ec: int)
  {
    mover.kind == King && Abs(sc - ec) == 2 && sr == er
  }

  /** A pawn reaching its last row: promotion is then pending. */
  predicate Promotes(mover: Piece, er: int)
  {
    mover.kind == Pawn && er == LastRow(mover.color)
  }

  /** The castling rook's move on row r: h to f when the king lands on g, a to d otherwise. */
  function CastleRook(g: Grid, r: int, kec: int): Grid
    requires 0 <= r < 8
  {
    g[Index(r, RookTargetCol(kec)) := At(g, r, RookStartCol(kec))][Index(r, RookStartCol(kec)) := None]
  }

  /** The has-moved flags after the piece on (sr, sc) moves. */
  function UpdateFlags(f: Flags, mover: Piece, sr: int, sc: int): Flags
  {
    if mover.kind == King then
      if mover.color == White then f.(whiteKingMoved := true) else f.(blackKingMoved := true)
    else if mover.kind == Rook then
      if mover.color == White then
        f.(whiteRookAMoved := f.whiteRookAMoved || (sc == 0 && sr == 7),
           whiteRookHMoved := f.whiteRookHMoved || (sc == 7 && sr == 7))
      else
        f.(blackRookAMoved := f.blackRookAMoved || (sc == 0 && sr == 0),
           blackRookHMoved := f.blackRookHMoved || (sc == 7 && sr == 0))
    else
      f
  }

  /** The en-passant target left for the opponent: set only by a pawn moving two rows. */
  function NextEnPassant(mover: Piece, sr: int, er: int, ec: int): Option<Pos>
  {
    if mover.kind == Pawn && Abs(sr - er) == 2 then Some(Pos(BehindRow(mover.color, er), ec)) else None
  }

  /**
   * The writes of movePiece once captures are settled: g is the board with any en-passant victim
   * removed and counts the table with the captured piece's count decremented.
   */
  function Complete(p: Position, mover: Piece, sr: int, sc: int, er: int, ec: int, g: Grid, counts: map<Piece, int>): Outcome
    requires InBounds(sr, sc) && InBounds(er, ec)
  {
    var moved := g[Index(er, ec) := Some(mover)][Index(sr, sc) := None];
    var board := if IsCastlingMove(mover, sr, sc, er, ec) then CastleRook(moved, er, ec) else moved;
    var promotes := Promotes(mover, er);
    var next := Position(board, if promotes then p.turn else Opponent(p.turn),
                         UpdateFlags(p.flags, mover, sr, sc), NextEnPassant(mover, sr, er, ec), counts);
    Outcome(if promotes then PromotionPending else Valid, next)
  }

  /** movePiece: every INVALID return leaves the position as it was. */
  function MovePiece(p: Position, sr: int, sc: int, er: int, ec: int): Outcome
  {
    if !InBounds(sr, sc) || !InBounds(er, ec) then Outcome(Invalid, p)
    else
      match At(p.grid, sr, sc)
      case None => Outcome(Invalid, p)
      case Some(mover) =>
        var atEnd := At(p.grid, er, ec);
        if mover.color != p.turn then Outcome(Invalid, p)
        else if atEnd.Some? && atEnd.value.color == p.turn then Outcome(Invalid, p)
        else if !MoveAttempt(p, sr, sc, er, ec) then Outcome(Invalid, p)
        else if IsEnPassantCapture(p, sr, sc, er, ec) then
          RulesLemmas.PawnAttemptRules(p, sr, sc, er, ec);
          var vr := BehindRow(mover.color, er);
          var victim := At(p.grid, vr, ec);
          if victim.Some? && victim.value.kind == Pawn && victim.value.color != mover.color then
            Complete(p, mover, sr, sc, er, ec, p.grid[Index(vr, ec) := None], Bump(p.counts, victim.value, -1))
          else
            Outcome(Invalid, p)
        else
          Complete(p, mover, sr, sc, er, ec, p.grid, if atEnd.Some? then Bump(p.counts, atEnd.value, -1) else p.counts)
  }

  /**
   * finalizePromotion: a pawn on (r, c) becomes a piece of the chosen type and the same colour and
   * the turn passes; with no pawn there nothing changes.
   */
  function FinalizePromotion(p: Position, r: int, c: int, t: PieceType): Position
    requires InBounds(r, c)
  {
    var sq := At(p.grid, r, c);
    if sq.None? || sq.value.kind != Pawn then p
    else
      var color := sq.value.color;
      SwitchTurn(p.(grid := p.grid[Index(r, c) := Some(Piece(t, color))],
                    counts := Bump(Bump(p.counts, Piece(Pawn, color), -1), Piece(t, color), 1)))
  }
}
