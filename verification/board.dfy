/**
 * Board (src/board.rs): the fixed 8x8 grid of squares, cell [f][r] holding
 * the square with file f and rank r, plus the occupancy of each square.
 * Beside `build` and `get_square` it holds the lookups the piece rules call:
 * `get_file`, `get_rank`, `get_diagonals`, `is_empty`,
 * `piece_matches_color`, and `add_piece`.
 */
module Boards {
  import opened Wrappers
  import opened Coordinates
  import Files
  import Ranks
  import opened Squares
  import opened Pieces

  /** The grid, and the piece standing on each occupied square (absent key: empty). */
  datatype Board = Board(squares: seq<seq<Square>>, occupants: map<Square, Piece>)

  /** The grid invariant `Board::build` establishes: 8 by 8, cell [f][r] is square (f, r). */
  ghost predicate Valid(b: Board) {
    && |b.squares| == 8
    && (forall f :: 0 <= f < 8 ==> |b.squares[f]| == 8)
    && (forall f, r :: 0 <= f < 8 && 0 <= r < 8 ==> b.squares[f][r] == Square(f, r))
  }

  /** One row of the `Board::build` literal: `Square::build(f, k)?` for k = 0 to 7. */
  function BuildFile(f: U8): (r: Result<seq<Square>, BoundsError>)
    ensures r.Ok? <==> f < Files.MaxNumberOfFiles
    ensures r.Ok? ==> |r.value| == 8 && forall k :: 0 <= k < 8 ==> r.value[k] == Square(f, k)
  {
    // Each cell's `?`: the first cell that fails is the error returned.
    match Squares.Build(f, 0) case Err(e) => Err(e) case Ok(c0) =>
    match Squares.Build(f, 1) case Err(e) => Err(e) case Ok(c1) =>
    match Squares.Build(f, 2) case Err(e) => Err(e) case Ok(c2) =>
    match Squares.Build(f, 3) case Err(e) => Err(e) case Ok(c3) =>
    match Squares.Build(f, 4) case Err(e) => Err(e) case Ok(c4) =>
    match Squares.Build(f, 5) case Err(e) => Err(e) case Ok(c5) =>
    match Squares.Build(f, 6) case Err(e) => Err(e) case Ok(c6) =>
    match Squares.Build(f, 7) case Err(e) => Err(e) case Ok(c7) =>
    Ok([c0, c1, c2, c3, c4, c5, c6, c7])
  }

  /** Row f of the grid holds squares (f, 0) to (f, 7) in order. */
  ghost predicate IsRow(row: seq<Square>, f: Files.File) {
    |row| == 8 && forall k :: 0 <= k < 8 ==> row[k] == Square(f, k)
  }

  /** Eight rows, row f holding file f, make a valid empty board. */
  lemma GridOfRows(r0: seq<Square>, r1: seq<Square>, r2: seq<Square>, r3: seq<Square>,
                   r4: seq<Square>, r5: seq<Square>, r6: seq<Square>, r7: seq<Square>)
    requires IsRow(r0, 0) && IsRow(r1, 1) && IsRow(r2, 2) && IsRow(r3, 3)
    requires IsRow(r4, 4) && IsRow(r5, 5) && IsRow(r6, 6) && IsRow(r7, 7)
    ensures Valid(Board([r0, r1, r2, r3, r4, r5, r6, r7], map[]))
  {
    var rows := [r0, r1, r2, r3, r4, r5, r6, r7];
    assert rows[0] == r0 && rows[1] == r1 && rows[2] == r2 && rows[3] == r3;
    assert rows[4] == r4 && rows[5] == r5 && rows[6] == r6 && rows[7] == r7;
    assert forall f :: 0 <= f < 8 ==> IsRow(rows[f], f);
  }

  /** `Board::build`: never fails, since every literal coordinate is on the board; all squares empty. */
  function Build(): (r: Result<Board, BoundsError>)
    ensures r.Ok? && Valid(r.value) && r.value.occupants == map[]
  {
    // Each row's `?`: the first row that fails is the error returned.
    match BuildFile(0) case Err(e) => Err(e) case Ok(f0) =>
    match BuildFile(1) case Err(e) => Err(e) case Ok(f1) =>
    match BuildFile(2) case Err(e) => Err(e) case Ok(f2) =>
    match BuildFile(3) case Err(e) => Err(e) case Ok(f3) =>
    match BuildFile(4) case Err(e) => Err(e) case Ok(f4) =>
    match BuildFile(5) case Err(e) => Err(e) case Ok(f5) =>
    match BuildFile(6) case Err(e) => Err(e) case Ok(f6) =>
    match BuildFile(7) case Err(e) => Err(e) case Ok(f7) =>
    GridOfRows(f0, f1, f2, f3, f4, f5, f6, f7);
    Ok(Board([f0, f1, f2, f3, f4, f5, f6, f7], map[]))
  }

  /** The 64 cells of a valid board are pairwise distinct and cover every coordinate. */
  lemma CellsCoverBoard(b: Board)
    requires Valid(b)
    ensures forall sq: Square :: b.squares[sq.file][sq.rank] == sq
    ensures forall f1, r1, f2, r2 ::
      (0 <= f1 < 8 && 0 <= r1 < 8 && 0 <= f2 < 8 && 0 <= r2 < 8 && (f1 != f2 || r1 != r2)) ==>
        b.squares[f1][r1] != b.squares[f2][r2]
  {
  }

  /** `Board::get_square`: the cell at (file, rank), which is that very coordinate. */
  function GetSquare(b: Board, file: Files.File, rank: Ranks.Rank): (sq: Square)
    requires Valid(b)
    ensures sq.file == file && sq.rank == rank
  {
    b.squares[Files.Value(file)][Ranks.Value(rank)]
  }

  /** The piece on a square, if any. */
  function PieceAt(b: Board, sq: Square): Option<Piece> {
    if sq in b.occupants then Some(b.occupants[sq]) else None
  }

  /** `Square::is_empty`. */
  predicate IsEmpty(b: Board, sq: Square) {
    PieceAt(b, sq).None?
  }

  /** `Square::piece_matches_color`: occupied by a piece of colour c. */
  predicate PieceMatchesColor(b: Board, sq: Square, c: Color) {
    PieceAt(b, sq).Some? && PieceAt(b, sq).value.color == c
  }

  /**
   * `Board::add_piece`, used to set up positions: places a piece on an empty
   * square. Placing one on an occupied square is a fatal contract violation.
   */
  function AddPiece(b: Board, piece: Piece, file: Files.File, rank: Ranks.Rank): (b': Board)
    requires Valid(b)
    requires IsEmpty(b, Square(file, rank))
    ensures Valid(b')
    ensures PieceAt(b', Square(file, rank)) == Some(piece)
    ensures forall sq :: sq != Square(file, rank) ==> PieceAt(b', sq) == PieceAt(b, sq)
  {
    b.(occupants := b.occupants[GetSquare(b, file, rank) := piece])
  }

  /** `Board::get_file`: the 8 squares of a file, in rank order. */
  function GetFile(b: Board, file: Files.File): (col: seq<Square>)
    requires Valid(b)
    ensures |col| == 8 && forall k :: 0 <= k < 8 ==> col[k] == Square(file, k)
  {
    b.squares[Files.Value(file)]
  }

  /** `Board::get_rank`: the 8 squares of a rank, in file order. */
  function GetRank(b: Board, rank: Ranks.Rank): (row: seq<Square>)
    requires Valid(b)
    ensures |row| == 8 && forall k :: 0 <= k < 8 ==> row[k] == Square(k, rank)
  {
    var r := Ranks.Value(rank);
    [b.squares[0][r], b.squares[1][r], b.squares[2][r], b.squares[3][r],
     b.squares[4][r], b.squares[5][r], b.squares[6][r], b.squares[7][r]]
  }

  /** Mapping coordinates to board squares with `get_square`, on a valid board, yields those coordinates. */
  function Lookup(b: Board, coords: seq<Square>): (r: seq<Square>)
    requires Valid(b)
    ensures r == coords
  {
    if coords == [] then []
    else [GetSquare(b, coords[0].file, coords[0].rank)] + Lookup(b, coords[1..])
  }

  // ---------------------------------------------------------------------
  // Diagonals, by the distance-to-edge algorithm of src/piece/bishop.rs
  // ---------------------------------------------------------------------

  function DistanceToLeft(s: Square): U8 { Files.Value(s.file) }
  function DistanceToFloor(s: Square): U8 { Ranks.Value(s.rank) }
  function DistanceToRight(s: Square): U8 { Files.MaxNumberOfFiles - Files.Value(s.file) - 1 }
  function DistanceToCeiling(s: Square): U8 { Ranks.MaxNumberOfRanks - Ranks.Value(s.rank) - 1 }

  /** Steps from s down-left to the end of its positive diagonal (file and rank rising together). */
  function PositiveLeftDiff(s: Square): U8 { Min(DistanceToLeft(s), DistanceToFloor(s)) }
  /** Steps from s up-right to the end of its positive diagonal. */
  function PositiveRightDiff(s: Square): U8 { Min(DistanceToRight(s), DistanceToCeiling(s)) }
  /** Steps from s up-left to the end of its negative diagonal (file rising, rank falling). */
  function NegativeLeftDiff(s: Square): U8 { Min(DistanceToLeft(s), DistanceToCeiling(s)) }
  /** Steps from s down-right to the end of its negative diagonal. */
  function NegativeRightDiff(s: Square): U8 { Min(DistanceToRight(s), DistanceToFloor(s)) }

  /** The positive diagonal through s, from its low corner to its high corner, s included. */
  function PositiveDiagonal(s: Square): seq<Square> {
    var f, r := Files.Value(s.file), Ranks.Value(s.rank);
    var left, right := PositiveLeftDiff(s), PositiveRightDiff(s);
    Zip(Files.IterFiles(RangeInclusive(f - left, f + right)),
        Ranks.IterRanks(RangeInclusive(r - left, r + right)))
  }

  /** The negative diagonal through s, from its top-left end to its bottom-right end, s included. */
  function NegativeDiagonal(s: Square): seq<Square> {
    var f, r := Files.Value(s.file), Ranks.Value(s.rank);
    var left, right := NegativeLeftDiff(s), NegativeRightDiff(s);
    Zip(Files.IterFiles(RangeInclusive(f - left, f + right)),
        Ranks.IterRanks(Reverse(RangeInclusive(r - right, r + left))))
  }

  /** A file's squares are exactly the squares on that file. */
  lemma FileMembers(b: Board, file: Files.File)
    requires Valid(b)
    ensures forall m: Square :: m in GetFile(b, file) <==> m.file == file
    ensures NoDup(GetFile(b, file)) && |GetFile(b, file)| == 8
  {
    var col := GetFile(b, file);
    assert forall k :: 0 <= k < 8 ==> col[k] == Square(file, k);
    forall m: Square | m.file == file
      ensures m in col
    {
      assert col[m.rank] == m;
    }
  }

  /** A rank's squares are exactly the squares on that rank. */
  lemma RankMembers(b: Board, rank: Ranks.Rank)
    requires Valid(b)
    ensures forall m: Square :: m in GetRank(b, rank) <==> m.rank == rank
    ensures NoDup(GetRank(b, rank)) && |GetRank(b, rank)| == 8
  {
    var row := GetRank(b, rank);
    assert forall k :: 0 <= k < 8 ==> row[k] == Square(k, rank);
    forall m: Square | m.rank == rank
      ensures m in row
    {
      assert row[m.file] == m;
    }
  }

  /** `Board::get_diagonals`: the positive diagonal, then the negative one, each holding s itself. */
  function GetDiagonals(b: Board, s: Square): seq<Square>
    requires Valid(b)
  {
    Lookup(b, PositiveDiagonal(s)) + Lookup(b, NegativeDiagonal(s))
  }

  /** Zipping on-board file and rank values keeps every pair. */
  lemma ZipOnBoard(fs: seq<U8>, rs: seq<U8>)
    requires |fs| == |rs|
    requires forall i :: 0 <= i < |fs| ==> fs[i] < Files.MaxNumberOfFiles && rs[i] < Ranks.MaxNumberOfRanks
    ensures |Zip(Files.IterFiles(fs), Ranks.IterRanks(rs))| == |fs|
    ensures forall i :: 0 <= i < |fs| ==> Zip(Files.IterFiles(fs), Ranks.IterRanks(rs))[i] == Square(fs[i], rs[i])
  {
    assert Files.IterFiles(fs) == fs;
    assert Ranks.IterRanks(rs) == rs;
  }

  /** The positive diagonal is the run of squares (f - L + i, r - L + i), i = 0 .. L + R. */
  lemma PositiveDiagonalAt(s: Square)
    ensures |PositiveDiagonal(s)| == PositiveLeftDiff(s) + PositiveRightDiff(s) + 1
    ensures forall i :: 0 <= i < |PositiveDiagonal(s)| ==>
      PositiveDiagonal(s)[i].file == s.file - PositiveLeftDiff(s) + i &&
      PositiveDiagonal(s)[i].rank == s.rank - PositiveLeftDiff(s) + i
  {
    var f, r := Files.Value(s.file), Ranks.Value(s.rank);
    var left, right := PositiveLeftDiff(s), PositiveRightDiff(s);
    assert 0 <= f - left && f + right < 8 && 0 <= r - left && r + right < 8;
    var fs := RangeInclusive(f - left, f + right);
    var rs := RangeInclusive(r - left, r + right);
    ZipOnBoard(fs, rs);
  }

  /** The negative diagonal is the run of squares (f - L + i, r + L - i), i = 0 .. L + R. */
  lemma NegativeDiagonalAt(s: Square)
    ensures |NegativeDiagonal(s)| == NegativeLeftDiff(s) + NegativeRightDiff(s) + 1
    ensures forall i :: 0 <= i < |NegativeDiagonal(s)| ==>
      NegativeDiagonal(s)[i].file == s.file - NegativeLeftDiff(s) + i &&
      NegativeDiagonal(s)[i].rank == s.rank + NegativeLeftDiff(s) - i
  {
    var f, r := Files.Value(s.file), Ranks.Value(s.rank);
    var left, right := NegativeLeftDiff(s), NegativeRightDiff(s);
    assert 0 <= f - left && f + right < 8 && 0 <= r - right && r + left < 8;
    var fs := RangeInclusive(f - left, f + right);
    var up := RangeInclusive(r - right, r + left);
    var rs := Reverse(up);
    assert |rs| == left + right + 1;
    forall i | 0 <= i < |rs| ensures rs[i] == r + left - i {
      assert rs[i] == up[|up| - 1 - i];
    }
    ZipOnBoard(fs, rs);
  }

  /**
   * Completeness and soundness of the positive diagonal: it holds exactly the
   * squares whose file and rank differ from s's by the same amount, each once.
   */
  lemma PositiveDiagonalMembers(s: Square)
    ensures forall m: Square :: m in PositiveDiagonal(s) <==> m.file - s.file == m.rank - s.rank
    ensures NoDup(PositiveDiagonal(s))
  {
    var d := PositiveDiagonal(s);
    PositiveDiagonalAt(s);
    forall m: Square | m.file - s.file == m.rank - s.rank
      ensures m in d
    {
      var i := m.file - s.file + PositiveLeftDiff(s);
      assert d[i] == m;
    }
  }

  /**
   * Completeness and soundness of the negative diagonal: it holds exactly the
   * squares whose file rises by as much as the rank falls, each once.
   */
  lemma NegativeDiagonalMembers(s: Square)
    ensures forall m: Square :: m in NegativeDiagonal(s) <==> m.file - s.file == s.rank - m.rank
    ensures NoDup(NegativeDiagonal(s))
  {
    var d := NegativeDiagonal(s);
    NegativeDiagonalAt(s);
    forall m: Square | m.file - s.file == s.rank - m.rank
      ensures m in d
    {
      var i := m.file - s.file + NegativeLeftDiff(s);
      assert d[i] == m;
    }
  }

  /** The positive and the negative diagonal together hold the squares as far from s in file as in rank. */
  lemma BothDiagonals(s: Square, p: seq<Square>, n: seq<Square>)
    requires forall m: Square :: m in p <==> m.file - s.file == m.rank - s.rank
    requires forall m: Square :: m in n <==> m.file - s.file == s.rank - m.rank
    ensures forall m: Square :: m in p + n <==> Abs(m.file - s.file) == Abs(m.rank - s.rank)
  {
  }

  /** `get_diagonals` returns exactly the squares on a diagonal through s, s itself twice. */
  lemma GetDiagonalsMembers(b: Board, s: Square)
    requires Valid(b)
    ensures forall m: Square :: m in GetDiagonals(b, s) <==> Abs(m.file - s.file) == Abs(m.rank - s.rank)
    ensures |GetDiagonals(b, s)| ==
      PositiveLeftDiff(s) + PositiveRightDiff(s) + NegativeLeftDiff(s) + NegativeRightDiff(s) + 2
  {
    var p, n := PositiveDiagonal(s), NegativeDiagonal(s);
    assert GetDiagonals(b, s) == p + n;
    PositiveDiagonalMembers(s);
    NegativeDiagonalMembers(s);
    PositiveDiagonalAt(s);
    NegativeDiagonalAt(s);
    BothDiagonals(s, p, n);
  }
}
