/**
 * Queen (src/piece/queen.rs): the board's diagonals, then the queen's file,
 * then its rank, keeping each square that is not the queen's own and does
 * not hold a piece of the queen's colour.
 */
module Queen {
  import opened Coordinates
  import opened Squares
  import opened Pieces
  import opened Boards
  import Bishop
  import Rook

  /** The `filter_map` step: squares other than s that hold no piece of `color`, in order. */
  function Keep(b: Board, xs: seq<Square>, s: Square, color: Color): (r: seq<Square>)
    ensures forall x :: x in r <==> x in xs && x != s && !PieceMatchesColor(b, x, color)
    ensures |r| <= |xs|
  {
    if xs == [] then []
    else
      (if xs[0] != s && !PieceMatchesColor(b, xs[0], color) then [xs[0]] else [])
      + Keep(b, xs[1..], s, color)
  }

  /** The filter runs square by square, so it distributes over concatenation. */
  lemma {:induction false} KeepAppend(b: Board, xs: seq<Square>, ys: seq<Square>, s: Square, color: Color)
    ensures Keep(b, xs + ys, s, color) == Keep(b, xs, s, color) + Keep(b, ys, s, color)
  {
    if xs == [] {
      assert xs + ys == ys;
    } else {
      assert (xs + ys)[1..] == xs[1..] + ys;
      KeepAppend(b, xs[1..], ys, s, color);
    }
  }

  /** Where no square holds a piece of `color`, the filter only drops s. */
  lemma {:induction false} KeepWithoutFriends(b: Board, xs: seq<Square>, s: Square, color: Color)
    requires forall x :: x in xs ==> !PieceMatchesColor(b, x, color)
    ensures Keep(b, xs, s, color) == Without(xs, s)
  {
    if xs != [] {
      KeepWithoutFriends(b, xs[1..], s, color);
    }
  }

  /** `Queen::get_moves` for a queen of colour `color`. */
  function GetMoves(b: Board, s: Square, color: Color): seq<Square>
    requires Valid(b)
  {
    Keep(b, GetDiagonals(b, s) + GetFile(b, s.file) + GetRank(b, s.rank), s, color)
  }

  /** m shares a file, a rank or a diagonal with s. */
  ghost predicate OnLine(s: Square, m: Square) {
    m.file == s.file || m.rank == s.rank || Abs(m.file - s.file) == Abs(m.rank - s.rank)
  }

  /** Three runs holding s's diagonals, its file and its rank together hold exactly its lines. */
  lemma LinesMembers(d: seq<Square>, f: seq<Square>, r: seq<Square>, s: Square)
    requires forall m: Square :: m in d <==> Abs(m.file - s.file) == Abs(m.rank - s.rank)
    requires forall m: Square :: m in f <==> m.file == s.file
    requires forall m: Square :: m in r <==> m.rank == s.rank
    ensures forall m :: m in d + f + r <==> OnLine(s, m)
  {
  }

  /** The squares the queen scans are exactly those on its lines (s itself among them). */
  lemma ScannedSquares(b: Board, s: Square)
    requires Valid(b)
    ensures forall m :: m in GetDiagonals(b, s) + GetFile(b, s.file) + GetRank(b, s.rank) <==> OnLine(s, m)
  {
    var d, f, r := GetDiagonals(b, s), GetFile(b, s.file), GetRank(b, s.rank);
    GetDiagonalsMembers(b, s);
    FileMembers(b, s.file);
    RankMembers(b, s.rank);
    LinesMembers(d, f, r, s);
  }

  /**
   * Soundness and completeness: every other square on s's lines that holds
   * no piece of the queen's colour, and nothing else. Pieces in the way do
   * not block, and enemy-held squares are kept.
   */
  lemma Members(b: Board, s: Square, color: Color)
    requires Valid(b)
    ensures forall m :: m in GetMoves(b, s, color) <==> m != s && OnLine(s, m) && !PieceMatchesColor(b, m, color)
  {
    ScannedSquares(b, s);
  }

  /** The result keeps the source's order: diagonal squares, then file squares, then rank squares. */
  lemma InOrder(b: Board, s: Square, color: Color)
    requires Valid(b)
    ensures GetMoves(b, s, color) ==
      Keep(b, GetDiagonals(b, s), s, color) + Keep(b, GetFile(b, s.file), s, color) + Keep(b, GetRank(b, s.rank), s, color)
  {
    var d, f, r := GetDiagonals(b, s), GetFile(b, s.file), GetRank(b, s.rank);
    KeepAppend(b, d + f, r, s, color);
    KeepAppend(b, d, f, s, color);
  }

  /** Without friendly pieces, filtering the four scanned runs drops s from each. */
  lemma KeepRuns(b: Board, p: seq<Square>, n: seq<Square>, f: seq<Square>, r: seq<Square>, s: Square, color: Color)
    requires forall x :: !PieceMatchesColor(b, x, color)
    ensures Keep(b, p + n + f + r, s, color) == (Without(p, s) + Without(n, s)) + Without(f + r, s)
  {
    var wp, wn, wf, wr := Without(p, s), Without(n, s), Without(f, s), Without(r, s);
    calc {
      Keep(b, p + n + f + r, s, color);
      { KeepWithoutFriends(b, p + n + f + r, s, color); }
      Without(p + n + f + r, s);
      { WithoutAppend(p + n + f, r, s); }
      Without(p + n + f, s) + wr;
      { WithoutAppend(p + n, f, s); WithoutAppend(p, n, s); }
      (wp + wn) + wf + wr;
      { assert (wp + wn) + wf + wr == (wp + wn) + (wf + wr); }
      (wp + wn) + (wf + wr);
      { WithoutAppend(f, r, s); }
      (wp + wn) + Without(f + r, s);
    }
  }

  /**
   * With no piece of the queen's colour on the board, the queen moves as a
   * bishop and a rook together: the bishop's squares, then the rook's.
   */
  lemma BishopPlusRook(b: Board, s: Square, color: Color)
    requires Valid(b)
    requires forall x :: !PieceMatchesColor(b, x, color)
    ensures GetMoves(b, s, color) == Bishop.GetMoves(b, s) + Rook.GetMoves(b, s)
  {
    var p, n := PositiveDiagonal(s), NegativeDiagonal(s);
    var f, r := GetFile(b, s.file), GetRank(b, s.rank);
    assert GetDiagonals(b, s) == p + n;
    assert Bishop.GetMoves(b, s) == Without(p, s) + Without(n, s);
    KeepRuns(b, p, n, f, r, s, color);
  }

  /** The unit tests' counts on an empty board: 27 from the centre, 21 from an edge or a corner. */
  lemma EmptyBoardCounts(b: Board, color: Color)
    requires Valid(b)
    requires forall x :: !PieceMatchesColor(b, x, color)
    ensures |GetMoves(b, Square(4, 4), color)| == 27
    ensures |GetMoves(b, Square(0, 4), color)| == 21
    ensures |GetMoves(b, Square(0, 0), color)| == 21
  {
    BishopPlusRook(b, Square(4, 4), color);
    BishopPlusRook(b, Square(0, 4), color);
    BishopPlusRook(b, Square(0, 0), color);
    Bishop.Length(b, Square(4, 4));
    Bishop.Length(b, Square(0, 4));
    Bishop.Length(b, Square(0, 0));
    Rook.Shape(b, Square(4, 4));
    Rook.Shape(b, Square(0, 4));
    Rook.Shape(b, Square(0, 0));
  }

  /** A square holding a piece of the queen's own colour is never a move, even in line of sight. */
  lemma FriendlyPieceExcluded(b: Board, piece: Piece)
    requires Valid(b) && IsEmpty(b, Square(4, 7))
    ensures Square(4, 7) !in GetMoves(AddPiece(b, piece, 4, 7), Square(4, 4), piece.color)
  {
  }

  /** A square holding an enemy piece on one of the queen's lines is a move. */
  lemma EnemyPieceIncluded(b: Board, s: Square, color: Color, m: Square)
    requires Valid(b) && m != s && OnLine(s, m)
    requires PieceAt(b, m).Some? && PieceAt(b, m).value.color != color
    ensures m in GetMoves(b, s, color)
  {
    Members(b, s, color);
  }
}
