/**
 * King (src/piece/king.rs): two nested loops over the ranks and files one
 * below to one above the king's, skipping the king's own square and any
 * coordinate `build` rejects. Occupancy is not looked at.
 */
module King {
  import opened Wrappers
  import opened Coordinates
  import Files
  import Ranks
  import opened Squares
  import opened Boards

  /** What happens when `rank_val - 1` or `file_val - 1` underflows a `u8`. */
  datatype Panic = SubtractWithOverflow

  /** m is one of the up to eight squares touching s. */
  ghost predicate Adjacent(s: Square, m: Square) {
    m != s && Abs(m.file - s.file) <= 1 && Abs(m.rank - s.rank) <= 1
  }

  /** The order the loops visit squares in: by rank, then by file. */
  predicate Before(a: Square, c: Square) {
    a.rank < c.rank || (a.rank == c.rank && a.file < c.file)
  }

  /** How many of the values v - 1, v, v + 1 are coordinates on the board. */
  function Span(v: int): int {
    Min(v + 2, 8) - Max(v - 1, 0)
  }

  /** Visited so far: every square on a rank below `rank`, or on `rank` left of `file`. */
  predicate Visited(m: Square, rank: int, file: int) {
    m.rank < rank || (m.rank == rank && m.file < file)
  }

  /** The loops' invariant: `moves` holds the adjacent squares visited so far, in visiting order. */
  ghost predicate Scanned(s: Square, moves: seq<Square>, rank: int, file: int) {
    && (forall m :: m in moves <==> Adjacent(s, m) && Visited(m, rank, file))
    && (forall i, j :: 0 <= i < j < |moves| ==> Before(moves[i], moves[j]))
    && (forall i :: 0 <= i < |moves| ==> Visited(moves[i], rank, file))
  }

  /** Visiting a square that is not pushed keeps the invariant when it is not adjacent. */
  lemma Skip(s: Square, moves: seq<Square>, rank: int, file: int)
    requires Scanned(s, moves, rank, file)
    requires !(0 <= file < 8 && 0 <= rank < 8) || !Adjacent(s, Square(file, rank))
    ensures Scanned(s, moves, rank, file + 1)
  {
    forall m | Adjacent(s, m) && Visited(m, rank, file + 1)
      ensures m in moves
    {
      assert Visited(m, rank, file) || (m.file == file && m.rank == rank);
    }
  }

  /** Pushing the adjacent square being visited keeps the invariant. */
  lemma Push(s: Square, moves: seq<Square>, rank: int, file: int)
    requires 0 <= file < 8 && 0 <= rank < 8 && Adjacent(s, Square(file, rank))
    requires Scanned(s, moves, rank, file)
    ensures Scanned(s, moves + [Square(file, rank)], rank, file + 1)
  {
    var moves' := moves + [Square(file, rank)];
    forall m | m in moves'
      ensures Adjacent(s, m) && Visited(m, rank, file + 1)
    {
      if m in moves {
      } else {
        assert m == Square(file, rank);
      }
    }
    forall m | Adjacent(s, m) && Visited(m, rank, file + 1)
      ensures m in moves'
    {
      if m != Square(file, rank) {
        assert m in moves;
      }
    }
  }

  /** Adjacent squares on the ranks below `rank` (which lies among the ranks the outer loop visits). */
  function RowsDone(s: Square, rank: int): int {
    (Min(rank, 8) - Max(s.rank - 1, 0)) * Span(s.file) - (if rank > s.rank then 1 else 0)
  }

  /** Adjacent squares on `rank` left of `file` (which lies among the files the inner loop visits). */
  function InRow(s: Square, rank: int, file: int): int {
    if rank < 8 then Min(file, 8) - Max(s.file - 1, 0) - (if rank == s.rank && file > s.file then 1 else 0) else 0
  }

  /** Pushing an on-board square other than s counts one more square. */
  lemma CountPush(s: Square, rank: int, file: int)
    requires 0 <= file < 8 && 0 <= rank < 8 && !(rank == s.rank && file == s.file)
    ensures InRow(s, rank, file + 1) == InRow(s, rank, file) + 1
  {
  }

  /** Skipping s or an off-board coordinate leaves the count as it was. */
  lemma CountSkip(s: Square, rank: int, file: int)
    requires (rank == s.rank && file == s.file) || file >= 8 || rank >= 8
    ensures InRow(s, rank, file + 1) == InRow(s, rank, file)
  {
  }

  /** A finished rank adds its squares to the rows done. */
  lemma CountRow(s: Square, rank: int)
    requires Max(s.rank - 1, 0) <= rank <= s.rank + 1
    ensures RowsDone(s, rank) + InRow(s, rank, s.file + 2) == RowsDone(s, rank + 1)
  {
    var w := Span(s.file);
    if rank < 8 {
      assert (Min(rank + 1, 8) - Max(s.rank - 1, 0)) * w == (Min(rank, 8) - Max(s.rank - 1, 0)) * w + w;
    }
  }

  /** No adjacent square lies left of the first file visited. */
  lemma StartRank(s: Square, moves: seq<Square>, rank: int, fileLo: int)
    requires fileLo == Max(s.file - 1, 0)
    requires Scanned(s, moves, rank, 0)
    ensures Scanned(s, moves, rank, fileLo)
  {
  }

  /** Nothing adjacent lies right of the last file visited, so a finished rank is a finished row. */
  lemma EndRank(s: Square, moves: seq<Square>, rank: int, fileHi: int)
    requires fileHi == s.file + 2
    requires Scanned(s, moves, rank, fileHi)
    ensures Scanned(s, moves, rank + 1, 0)
  {
  }

  /**
   * The inner loop of `King::get_moves` on one rank: it appends that rank's
   * adjacent squares, in file order, to those of the ranks before.
   */
  method ScanRank(b: Board, s: Square, rank: U8, moves: seq<Square>) returns (moves': seq<Square>)
    requires Valid(b)
    requires Max(s.rank - 1, 0) <= rank <= s.rank + 1
    requires Scanned(s, moves, rank, 0)
    ensures Scanned(s, moves', rank + 1, 0)
    ensures |moves'| == |moves| + InRow(s, rank, s.file + 2)
  {
    var rankVal := Ranks.Value(s.rank);
    var fileVal := Files.Value(s.file);
    var fileLo := SaturatingSub(fileVal, 1);
    moves' := moves;
    StartRank(s, moves', rank, fileLo);
    for file := fileLo to fileVal + 2
      invariant Scanned(s, moves', rank, file)
      invariant |moves'| == |moves| + InRow(s, rank, file)
    {
      if rank == rankVal && file == fileVal {
        Skip(s, moves', rank, file);
        CountSkip(s, rank, file);
        continue;
      }
      match (Ranks.Build(rank), Files.Build(file))
      case (Ok(r), Ok(f)) =>
        Push(s, moves', rank, file);
        CountPush(s, rank, file);
        moves' := moves' + [GetSquare(b, f, r)];
      case _ =>
        Skip(s, moves', rank, file);
        CountSkip(s, rank, file);
    }
    EndRank(s, moves', rank, fileVal + 2);
  }

  /**
   * `King::get_moves` with the lower loop bounds clamped at 0: exactly the
   * adjacent squares, in rank-then-file order, 3 in a corner, 5 on an edge
   * and 8 elsewhere.
   */
  method GetMoves(b: Board, s: Square) returns (moves: seq<Square>)
    requires Valid(b)
    ensures forall m :: m in moves <==> Adjacent(s, m)
    ensures forall i, j :: 0 <= i < j < |moves| ==> Before(moves[i], moves[j])
    ensures |moves| == Span(s.rank) * Span(s.file) - 1
  {
    moves := [];
    var rankVal := Ranks.Value(s.rank);
    var rankLo := SaturatingSub(rankVal, 1);
    for rank := rankLo to rankVal + 2
      invariant Scanned(s, moves, rank, 0)
      invariant |moves| == RowsDone(s, rank)
    {
      moves := ScanRank(b, s, rank, moves);
      CountRow(s, rank);
    }
    assert Scanned(s, moves, rankVal + 2, 0);
  }

  /** Two lists in strict visiting order holding the same squares are the same list. */
  lemma {:induction false} SortedUnique(xs: seq<Square>, ys: seq<Square>)
    requires forall m :: m in xs <==> m in ys
    requires forall i, j :: 0 <= i < j < |xs| ==> Before(xs[i], xs[j])
    requires forall i, j :: 0 <= i < j < |ys| ==> Before(ys[i], ys[j])
    ensures xs == ys
  {
    NoDupCard(xs);
    NoDupCard(ys);
    assert (set m | m in xs) == (set m | m in ys);
    if xs != [] {
      assert xs[0] in ys && ys[0] in xs;
      assert xs[0] == ys[0];
      var xt, yt := xs[1..], ys[1..];
      forall m ensures m in xt <==> m in yt {
        assert m in xt ==> m in xs && m != xs[0];
        assert m in yt ==> m in ys && m != ys[0];
      }
      SortedUnique(xt, yt);
      assert xs == [xs[0]] + xt && ys == [ys[0]] + yt;
    }
  }

  /**
   * The result depends on the square only, never on what stands where: any
   * two lists meeting `GetMoves`'s postcondition for s, whatever the boards
   * they were computed on, are equal.
   */
  lemma IgnoresOccupancy(s: Square, moves1: seq<Square>, moves2: seq<Square>)
    requires forall m :: m in moves1 <==> Adjacent(s, m)
    requires forall i, j :: 0 <= i < j < |moves1| ==> Before(moves1[i], moves1[j])
    requires forall m :: m in moves2 <==> Adjacent(s, m)
    requires forall i, j :: 0 <= i < j < |moves2| ==> Before(moves2[i], moves2[j])
    ensures moves1 == moves2
  {
    SortedUnique(moves1, moves2);
  }

  /**
   * `King::get_moves` as written: the loop bounds `rank_val-1` and
   * `file_val-1` are `u8` subtractions, which panic on the A file or the
   * first rank; elsewhere the loops run as in `GetMoves`.
   */
  method GetMovesAsWritten(b: Board, s: Square) returns (r: Result<seq<Square>, Panic>)
    requires Valid(b)
    ensures r.Err? <==> s.file == Files.A || s.rank == Ranks.R1
    ensures r.Ok? ==> forall m :: m in r.value <==> Adjacent(s, m)
  {
    if CheckedSub(Ranks.Value(s.rank), 1).None? || CheckedSub(Files.Value(s.file), 1).None? {
      return Err(SubtractWithOverflow);
    }
    var moves := GetMoves(b, s);
    return Ok(moves);
  }

  /** The king on a1 has three adjacent squares, yet the code as written panics there. */
  method CornerPanicsAsWritten(b: Board) returns (asWritten: Result<seq<Square>, Panic>, corrected: seq<Square>)
    requires Valid(b)
    ensures asWritten.Err?
    ensures |corrected| == 3 && Square(1, 0) in corrected && Square(0, 1) in corrected && Square(1, 1) in corrected
  {
    asWritten := GetMovesAsWritten(b, Square(0, 0));
    corrected := GetMoves(b, Square(0, 0));
  }
}
