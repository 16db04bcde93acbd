/**
 * The state of Board.java as a value: the 8x8 squares (row-major, 64 cells), the side to move,
 * the six castling flags, the en-passant target and the piece-count table.
 * Row 0 is rank 8 and column 0 is file a.
 */
module Positions {
  import opened Util
  import opened Pieces

  /** A square holds a piece or nothing (a Java null). */
  type Square = Option<Piece>

  predicate InBounds(r: int, c: int)
  {
    0 <= r < 8 && 0 <= c < 8
  }

  /** Row-major position of square (r, c) among the 64 cells. */
  function Index(r: int, c: int): (i: nat)
    requires InBounds(r, c)
    ensures i < 64
  {
    8 * r + c
  }

  /** Piece[8][8] flattened row by row. */
  type Grid = g: seq<Square> | |g| == 64 witness seq(64, i => None)

  function At(g: Grid, r: int, c: int): Square
    requires InBounds(r, c)
  {
    g[Index(r, c)]
  }

  /** An int[]{row, col} square reference. */
  datatype Pos = Pos(row: int, col: int)

  /** The six has-moved flags; A is the queenside (a-file) rook, H the kingside (h-file) rook. */
  datatype Flags = Flags(
    whiteKingMoved: bool, blackKingMoved: bool,
    whiteRookAMoved: bool, whiteRookHMoved: bool,
    blackRookAMoved: bool, blackRookHMoved: bool)

  const NothingMoved := Flags(false, false, false, false, false, false)

  /** Everything a Board object holds apart from its random source. */
  datatype Position = Position(
    grid: Grid,
    turn: PieceColor,
    flags: Flags,
    ep: Option<Pos>,
    counts: map<Piece, int>)

  function EmptyGrid(): (g: Grid)
    ensures forall i :: 0 <= i < 64 ==> g[i] == None
  {
    seq(64, i => None)
  }

  /** The number of squares holding some piece. */
  function Occupied(s: seq<Square>): nat
  {
    if |s| == 0 then 0 else Occupied(s[..|s| - 1]) + (if s[|s| - 1].Some? then 1 else 0)
  }

  /** Writing x into cell i changes the number of occupied cells by the obvious amount. */
  lemma {:induction false} OccupiedUpdate(s: seq<Square>, i: nat, x: Square)
    requires i < |s|
    ensures Occupied(s[i := x]) == Occupied(s) - (if s[i].Some? then 1 else 0) + (if x.Some? then 1 else 0)
  {
    var n := |s| - 1;
    if i < n {
      assert s[i := x][..n] == s[..n][i := x];
      OccupiedUpdate(s[..n], i, x);
    } else {
      assert s[i := x][..n] == s[..n];
    }
  }

  /** Lifting the piece on a and dropping it on b never adds an occupied square. */
  lemma OccupiedRelocate(s: seq<Square>, a: nat, b: nat)
    requires a < |s| && b < |s|
    ensures Occupied(s[a := None][b := s[a]]) <= Occupied(s)
  {
    OccupiedUpdate(s, a, None);
    OccupiedUpdate(s[a := None], b, s[a]);
  }

  /** The number of squares holding exactly piece q. */
  function CountOf(s: seq<Square>, q: Piece): nat
  {
    if |s| == 0 then 0 else CountOf(s[..|s| - 1], q) + (if s[|s| - 1] == Some(q) then 1 else 0)
  }

  lemma {:induction false} CountOfUpdate(s: seq<Square>, i: nat, x: Square, q: Piece)
    requires i < |s|
    ensures CountOf(s[i := x], q) == CountOf(s, q) - (if s[i] == Some(q) then 1 else 0) + (if x == Some(q) then 1 else 0)
  {
    var n := |s| - 1;
    if i < n {
      assert s[i := x][..n] == s[..n][i := x];
      CountOfUpdate(s[..n], i, x, q);
    } else {
      assert s[i := x][..n] == s[..n];
    }
  }

  lemma {:induction false} CountOfEmpty(s: seq<Square>, q: Piece)
    requires forall i :: 0 <= i < |s| ==> s[i] == None
    ensures CountOf(s, q) == 0
  {
    if |s| > 0 {
      CountOfEmpty(s[..|s| - 1], q);
    }
  }

  /** A square holding q makes its count positive. */
  lemma {:induction false} CountOfPositive(s: seq<Square>, i: nat, q: Piece)
    requires i < |s| && s[i] == Some(q)
    ensures CountOf(s, q) >= 1
  {
    var n := |s| - 1;
    if i < n {
      CountOfPositive(s[..n], i, q);
    }
  }

  /** Two squares holding q make its count at least two. */
  lemma {:induction false} CountOfTwo(s: seq<Square>, i: nat, j: nat, q: Piece)
    requires i < j < |s| && s[i] == Some(q) && s[j] == Some(q)
    ensures CountOf(s, q) >= 2
  {
    var n := |s| - 1;
    if j < n {
      CountOfTwo(s[..n], i, j, q);
    } else {
      CountOfPositive(s[..n], i, q);
    }
  }

  /** Counting over two halves adds up. */
  lemma {:induction false} CountOfAppend(a: seq<Square>, b: seq<Square>, q: Piece)
    ensures CountOf(a + b, q) == CountOf(a, q) + CountOf(b, q)
    decreases |b|
  {
    if |b| == 0 {
      assert a + b == a;
    } else {
      var n := |b| - 1;
      assert (a + b)[..|a + b| - 1] == a + b[..n];
      CountOfAppend(a, b[..n], q);
    }
  }

  /** The table `pieceCounts` that agrees with the board. */
  function CountsOf(g: Grid): (m: map<Piece, int>)
    ensures m.Keys == AllPieces()
    ensures forall q :: q in m ==> m[q] == CountOf(g, q)
  {
    map q | q in AllPieces() :: CountOf(g, q)
  }

  /** The piece-count table records, for every (colour, type), how many squares hold that piece. */
  predicate CountsAgree(p: Position)
  {
    p.counts == CountsOf(p.grid)
  }

  /** pieceCounts.get(color).get(type), defaulting to 0 where the table has no entry. */
  function Get(m: map<Piece, int>, q: Piece): int
  {
    if q in m then m[q] else 0
  }

  /** incrementPieceCount / decrementPieceCount. */
  function Bump(m: map<Piece, int>, q: Piece, delta: int): (m': map<Piece, int>)
    ensures m'.Keys == m.Keys + {q}
    ensures m'[q] == Get(m, q) + delta
    ensures forall o :: o in m && o != q ==> m'[o] == m[o]
  {
    m[q := Get(m, q) + delta]
  }

  /** The table after cell contents was are replaced by now: the count of was drops, that of now rises. */
  function Recount(m: map<Piece, int>, was: Square, now: Square): map<Piece, int>
  {
    var m1 := if was.Some? then Bump(m, was.value, -1) else m;
    if now.Some? then Bump(m1, now.value, 1) else m1
  }

  /** Writing x into cell i changes the true count table exactly as Recount says. */
  lemma CountsOfUpdate(g: Grid, i: nat, x: Square)
    requires i < 64
    ensures CountsOf(g[i := x]) == Recount(CountsOf(g), g[i], x)
  {
    if g[i].Some? { PieceListed(g[i].value); }
    if x.Some? { PieceListed(x.value); }
    var lhs, rhs := CountsOf(g[i := x]), Recount(CountsOf(g), g[i], x);
    RecountKeys(CountsOf(g), g[i], x);
    forall q | q in AllPieces() ensures lhs[q] == rhs[q] {
      CountOfUpdate(g, i, x, q);
      RecountAt(CountsOf(g), g[i], x, q);
    }
    assert lhs.Keys == rhs.Keys;
  }

  /** Recounting between pieces the table already lists keeps its keys. */
  lemma RecountKeys(m: map<Piece, int>, was: Square, now: Square)
    requires was.Some? ==> was.value in m
    requires now.Some? ==> now.value in m
    ensures Recount(m, was, now).Keys == m.Keys
  {
  }

  /** One entry of a recounted table. */
  lemma RecountAt(m: map<Piece, int>, was: Square, now: Square, q: Piece)
    requires q in m
    ensures q in Recount(m, was, now)
    ensures Recount(m, was, now)[q] == m[q] - (if was == Some(q) then 1 else 0) + (if now == Some(q) then 1 else 0)
  {
    var m1 := if was.Some? then Bump(m, was.value, -1) else m;
    assert q in m1 && m1[q] == m[q] - (if was == Some(q) then 1 else 0);
  }

  /** Moving the piece on a to b keeps every count except that of the piece captured on b. */
  lemma CountsOfRelocate(g: Grid, a: nat, b: nat)
    requires a < 64 && b < 64 && a != b && g[a].Some?
    ensures CountsOf(g[b := g[a]][a := None]) == if g[b].Some? then Bump(CountsOf(g), g[b].value, -1) else CountsOf(g)
  {
    CountsOfUpdate(g, b, g[a]);
    CountsOfUpdate(g[b := g[a]], a, None);
    PieceListed(g[a].value);
    var m0 := CountsOf(g);
    var want := if g[b].Some? then Bump(m0, g[b].value, -1) else m0;
    assert Recount(m0, g[b], g[a]) == Bump(want, g[a].value, 1);
    BumpCancel(want, g[a].value);
  }

  /** Adding one and taking one away again restores the table. */
  lemma BumpCancel(m: map<Piece, int>, q: Piece)
    requires q in m
    ensures Bump(Bump(m, q, 1), q, -1) == m
  {
    var m2 := Bump(Bump(m, q, 1), q, -1);
    assert m2.Keys == m.Keys;
    forall o | o in m ensures m2[o] == m[o] {
    }
  }
}
