/**
 * The legality rules of Board.java as functions of a Position: path test, piece geometry, castling,
 * king search, the check test and the full move test with its self-check exclusion.
 * The source evaluates these by writing provisional moves into its array and undoing them; here each
 * provisional board is a value handed to the nested test. The class in board.dfy does the writes and
 * is proved to compute these functions and to leave its array as it found it.
 */
module Rules {
  import opened Util
  import opened Pieces
  import opened Positions

  /** Same row, same column or same diagonal. */
  predicate OnLine(sr: int, sc: int, er: int, ec: int)
  {
    sr == er || sc == ec || Abs(er - sr) == Abs(ec - sc)
  }

  /** Number of king steps from start to end along a line. */
  function Dist(sr: int, sc: int, er: int, ec: int): nat
  {
    if Abs(er - sr) >= Abs(ec - sc) then Abs(er - sr) else Abs(ec - sc)
  }

  /** The coordinate k steps from s in direction d, d being -1, 0 or 1. */
  function Along(s: int, d: int, k: int): int
  {
    if d > 0 then s + k else if d < 0 then s - k else s
  }

  /** isPathClear: every square strictly between start and end is empty. */
  predicate PathClear(g: Grid, sr: int, sc: int, er: int, ec: int)
    requires InBounds(sr, sc) && InBounds(er, ec) && OnLine(sr, sc, er, ec)
  {
    forall k | 0 < k < Dist(sr, sc, er, ec) :: StepSquare(g, sr, sc, er, ec, k) == None
  }

  /** The square k steps from start towards end, for 0 <= k <= Dist. */
  function StepSquare(g: Grid, sr: int, sc: int, er: int, ec: int, k: int): Square
    requires InBounds(sr, sc) && InBounds(er, ec) && OnLine(sr, sc, er, ec) && 0 <= k <= Dist(sr, sc, er, ec)
  {
    At(g, Along(sr, Sign(er - sr), k), Along(sc, Sign(ec - sc), k))
  }

  predicate KnightGeometry(rowDiff: nat, colDiff: nat)
  {
    (rowDiff == 2 && colDiff == 1) || (rowDiff == 1 && colDiff == 2)
  }

  predicate Orthogonal(rowDiff: nat, colDiff: nat)
  {
    (rowDiff > 0 && colDiff == 0) || (colDiff > 0 && rowDiff == 0)
  }

  predicate Diagonal(rowDiff: nat, colDiff: nat)
  {
    rowDiff == colDiff && rowDiff > 0
  }

  /** Row a pawn of this colour starts on (its double step is allowed only from here). */
  function PawnHomeRow(c: PieceColor): int
  {
    if c == White then 6 else 1
  }

  /** Row direction a pawn of this colour advances in. */
  function Forward(c: PieceColor): int
  {
    if c == White then -1 else 1
  }

  /** The pawn case of isValidPieceMove: geometry only, occupation of the target is checked later. */
  predicate PawnGeometry(g: Grid, color: PieceColor, sr: int, sc: int, er: int, ec: int)
    requires InBounds(sr, sc) && InBounds(er, ec)
  {
    var rowDiff, colDiff, rowDir := Abs(er - sr), Abs(ec - sc), Sign(er - sr);
    if colDiff == 0 then
      if color == White && rowDir == -1 then
        rowDiff == 1 || (rowDiff == 2 && sr == 6 && At(g, sr - 1, sc) == None)
      else if color == Black && rowDir == 1 then
        rowDiff == 1 || (rowDiff == 2 && sr == 1 && At(g, sr + 1, sc) == None)
      else
        false
    else if colDiff == 1 && rowDiff == 1 then
      (color == White && rowDir == -1) || (color == Black && rowDir == 1)
    else
      false
  }

  /** The geometric test of isValidCastlingAttempt exactly as the source writes it. */
  predicate CastlingGuardAsWritten(ksr: int, ksc: int, ker: int, kec: int)
  {
    (ksr == 0 || ksr == 7) && Abs(kec - ksc) == 2 && ksr == ker
  }

  /** The same test with the king required on its home file e (column 4). */
  predicate CastlingGuard(ksr: int, ksc: int, ker: int, kec: int)
  {
    CastlingGuardAsWritten(ksr, ksc, ker, kec) && ksc == 4
  }

  function KingMoved(f: Flags, c: PieceColor): bool
  {
    if c == White then f.whiteKingMoved else f.blackKingMoved
  }

  function RookMoved(f: Flags, c: PieceColor, kingside: bool): bool
  {
    if c == White then (if kingside then f.whiteRookHMoved else f.whiteRookAMoved)
    else (if kingside then f.blackRookHMoved else f.blackRookAMoved)
  }

  /** Column of the castling rook: h for a king landing on g, a otherwise. */
  function RookStartCol(kec: int): int
  {
    if kec == 6 then 7 else 0
  }

  /** Column the castling rook moves to: f for a king landing on g, d otherwise. */
  function RookTargetCol(kec: int): int
  {
    if kec == 6 then 5 else 3
  }

  /** isValidPieceMove: the move geometry of the piece on the start square. */
  function PieceMove(p: Position, sr: int, sc: int, er: int, ec: int): bool
    requires InBounds(sr, sc) && InBounds(er, ec)
    decreases Occupied(p.grid), 2, 0, 0
  {
    match At(p.grid, sr, sc)
    case None => false
    case Some(piece) =>
      var rowDiff, colDiff := Abs(er - sr), Abs(ec - sc);
      match piece.kind
      case Pawn => PawnGeometry(p.grid, piece.color, sr, sc, er, ec)
      case Knight => KnightGeometry(rowDiff, colDiff)
      case Bishop => Diagonal(rowDiff, colDiff) && PathClear(p.grid, sr, sc, er, ec)
      case Rook => Orthogonal(rowDiff, colDiff) && PathClear(p.grid, sr, sc, er, ec)
      case Queen =>
        (Orthogonal(rowDiff, colDiff) || Diagonal(rowDiff, colDiff)) && PathClear(p.grid, sr, sc, er, ec)
      case King =>
        if rowDiff <= 1 && colDiff <= 1 && (rowDiff > 0 || colDiff > 0) then true
        else if rowDiff == 0 && colDiff == 2 then Castling(p, sr, sc, er, ec)
        else false
  }

  /**
   * isValidCastlingAttempt for the king on (ksr, ksc) landing on (ker, kec). The two provisional
   * boards put that king on the square it passes and on the square it lands on, the start emptied.
   */
  function Castling(p: Position, ksr: int, ksc: int, ker: int, kec: int): bool
    requires InBounds(ksr, ksc) && InBounds(ker, kec)
    decreases Occupied(p.grid), 1, 0, 0
  {
    if !CastlingGuard(ksr, ksc, ker, kec) then false
    else if KingMoved(p.flags, p.turn) then false
    else
      var kingside := kec == 6;
      var rookCol := RookStartCol(kec);
      if At(p.grid, ksr, rookCol) != Some(Piece(Rook, p.turn)) then false
      else if RookMoved(p.flags, p.turn, kingside) then false
      else if InCheck(p, p.turn) then false
      else if !PathClear(p.grid, ksr, ksc, ksr, rookCol) then false
      else SafePassage(p, ksr, ksc, kec)
  }

  /**
   * The last test of isValidCastlingAttempt: the king on (r, ksc), moved one column towards kec and
   * then on to kec, is in check on neither provisional board.
   */
  function SafePassage(p: Position, r: int, ksc: int, kec: int): bool
    requires InBounds(r, ksc) && InBounds(r, kec) && Abs(kec - ksc) == 2
    decreases Occupied(p.grid), 0, 10, 0
  {
    var inter := ksc + Sign(kec - ksc);
    var passing := KingStepped(p.grid, r, ksc, inter);
    OccupiedRelocate(p.grid, Index(r, ksc), Index(r, inter));
    if InCheck(p.(grid := passing), p.turn) then false
    else
      var landing := KingStepped(passing, r, inter, kec);
      OccupiedRelocate(passing, Index(r, inter), Index(r, kec));
      !InCheck(p.(grid := landing), p.turn)
  }

  /** The board with the piece on (r, from) moved to (r, to) and (r, from) emptied. */
  function KingStepped(g: Grid, r: int, from: int, to: int): Grid
    requires InBounds(r, from) && InBounds(r, to)
  {
    g[Index(r, from) := None][Index(r, to) := At(g, r, from)]
  }

  /** findKing: the first square, in row-major order, holding the king of colour kc. */
  function FindKing(g: Grid, kc: PieceColor): (k: Option<Pos>)
    ensures k.Some? ==> InBounds(k.value.row, k.value.col) && At(g, k.value.row, k.value.col) == Some(Piece(King, kc))
  {
    FindKingFrom(g, kc, 0, 0)
  }

  function FindKingFrom(g: Grid, kc: PieceColor, r: int, c: int): (k: Option<Pos>)
    requires 0 <= r <= 8 && 0 <= c <= 8
    ensures k.Some? ==> InBounds(k.value.row, k.value.col) && At(g, k.value.row, k.value.col) == Some(Piece(King, kc))
    decreases 8 - r, 8 - c
  {
    if r == 8 then None
    else if c == 8 then FindKingFrom(g, kc, r + 1, 0)
    else if At(g, r, c) == Some(Piece(King, kc)) then Some(Pos(r, c))
    else FindKingFrom(g, kc, r, c + 1)
  }

  /** isKingInCheck: some opposing piece attacks the king of colour kc. No king, no check. */
  function InCheck(p: Position, kc: PieceColor): bool
    decreases Occupied(p.grid), 0, 9, 0
  {
    match FindKing(p.grid, kc)
    case None => false
    case Some(k) => AttackScan(p, kc, k, 0, 0)
  }

  /**
   * The scan loop of isKingInCheck from square (r, c) on. A pawn attacks the two squares diagonally
   * ahead of it; any other piece attacks if its geometry reaches the king with the king lifted off.
   */
  function AttackScan(p: Position, kc: PieceColor, k: Pos, r: int, c: int): bool
    requires InBounds(k.row, k.col) && At(p.grid, k.row, k.col).Some?
    requires 0 <= r <= 8 && 0 <= c <= 8
    decreases Occupied(p.grid), 0, 8 - r, 8 - c
  {
    if r == 8 then false
    else if c == 8 then AttackScan(p, kc, k, r + 1, 0)
    else
      var sq := At(p.grid, r, c);
      if sq.Some? && sq.value.color == Opponent(kc) then
        if sq.value.kind == Pawn then
          (Abs(k.col - c) == 1 && k.row - r == Forward(sq.value.color)) || AttackScan(p, kc, k, r, c + 1)
        else
          var lifted := p.grid[Index(k.row, k.col) := None];
          OccupiedUpdate(p.grid, Index(k.row, k.col), None);
          PieceMove(p.(grid := lifted), r, c, k.row, k.col) || AttackScan(p, kc, k, r, c + 1)
      else
        AttackScan(p, kc, k, r, c + 1)
  }

  /** The diagonal pawn step onto the empty en-passant target. */
  predicate IsEnPassantCapture(p: Position, sr: int, sc: int, er: int, ec: int)
    requires InBounds(sr, sc) && InBounds(er, ec)
  {
    match At(p.grid, sr, sc)
    case None => false
    case Some(m) =>
      m.kind == Pawn && Abs(sc - ec) == 1 && At(p.grid, er, ec).None? && p.ep == Some(Pos(er, ec))
  }

  /** The row just behind row er as seen by a pawn of colour mover: the en-passant victim's row and target row. */
  function BehindRow(mover: PieceColor, er: int): int
  {
    if mover == White then er + 1 else er - 1
  }

  /** The occupation rules a pawn move must meet once its geometry holds. */
  predicate PawnOccupation(p: Position, color: PieceColor, sr: int, sc: int, er: int, ec: int)
    requires InBounds(sr, sc) && InBounds(er, ec)
  {
    var target := At(p.grid, er, ec);
    if sc == ec then target.None?
    else if p.ep == Some(Pos(er, ec)) then !(color == White && sr != 3) && !(color == Black && sr != 4)
    else target.Some? && target.value.color != p.turn
  }

  /** A pawn on the start square moves as its geometry allows. */
  predicate PawnStepOk(p: Position, sr: int, sc: int, er: int, ec: int)
    requires InBounds(sr, sc) && InBounds(er, ec)
  {
    var m := At(p.grid, sr, sc);
    m.Some? && m.value.kind == Pawn ==> PawnGeometry(p.grid, m.value.color, sr, sc, er, ec)
  }

  /** The board isValidMoveAttempt checks for self-check: the move made, an en-passant victim removed. */
  function Simulate(p: Position, sr: int, sc: int, er: int, ec: int): Grid
    requires InBounds(sr, sc) && InBounds(er, ec)
    requires PawnStepOk(p, sr, sc, er, ec)
  {
    var mover := At(p.grid, sr, sc);
    var moved := p.grid[Index(er, ec) := mover][Index(sr, sc) := None];
    if IsEnPassantCapture(p, sr, sc, er, ec) then
      moved[Index(BehindRow(mover.value.color, er), ec) := None]
    else
      moved
  }

  /** isValidMoveAttempt: the full legality test, ending with the self-check exclusion. */
  function MoveAttempt(p: Position, sr: int, sc: int, er: int, ec: int): bool
  {
    if !InBounds(sr, sc) || !InBounds(er, ec) then false
    else
      match At(p.grid, sr, sc)
      case None => false
      case Some(mover) =>
        if mover.color != p.turn then false
        else
          var target := At(p.grid, er, ec);
          if target.Some? && target.value.color == p.turn && (sr != er || sc != ec) then false
          else if !PieceMove(p, sr, sc, er, ec) then false
          else if mover.kind == Pawn && !PawnOccupation(p, mover.color, sr, sc, er, ec) then false
          else !InCheck(p.(grid := Simulate(p, sr, sc, er, ec)), p.turn)
  }
}
