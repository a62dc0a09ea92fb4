/**
 * Rook (src/piece/rook.rs): the squares of the rook's file, then those of
 * its rank, the rook's own square dropped. Occupancy is not looked at.
 */
module Rook {
  import opened Squares
  import opened Boards

  /** `Rook::get_moves`. */
  function GetMoves(b: Board, s: Square): seq<Square>
    requires Valid(b)
  {
    Without(GetFile(b, s.file) + GetRank(b, s.rank), s)
  }

  /** m shares a file or a rank with s. */
  ghost predicate OnLine(s: Square, m: Square) {
    m.file == s.file || m.rank == s.rank
  }

  /** Soundness and completeness: every other square on s's file or rank, and nothing else. */
  lemma Members(b: Board, s: Square)
    requires Valid(b)
    ensures forall m :: m in GetMoves(b, s) <==> m != s && OnLine(s, m)
  {
    FileMembers(b, s.file);
    RankMembers(b, s.rank);
  }

  /** The file less s and the rank less s meet nowhere, so together they list each square once. */
  lemma JoinLines(s: Square, wc: seq<Square>, wr: seq<Square>)
    requires NoDup(wc) && forall i :: 0 <= i < |wc| ==> wc[i] != s && wc[i].file == s.file
    requires NoDup(wr) && forall i :: 0 <= i < |wr| ==> wr[i] != s && wr[i].rank == s.rank
    ensures NoDup(wc + wr)
  {
    assert forall x :: x in wc ==> x !in wr;
    NoDupAppend(wc, wr);
  }

  /** The 14 moves, each once: first the 7 others on the file, then the 7 others on the rank. */
  lemma Shape(b: Board, s: Square)
    requires Valid(b)
    ensures var moves := GetMoves(b, s);
      && NoDup(moves)
      && |moves| == 14
      && (forall i :: 0 <= i < 7 ==> moves[i].file == s.file && moves[i] != s)
      && (forall i :: 7 <= i < 14 ==> moves[i].rank == s.rank && moves[i] != s)
  {
    var col, row := GetFile(b, s.file), GetRank(b, s.rank);
    FileMembers(b, s.file);
    RankMembers(b, s.rank);
    WithoutAppend(col, row, s);
    Drop(col, s);
    Drop(row, s);
    JoinLines(s, Without(col, s), Without(row, s));
  }

  /** The result depends on the square only, never on what stands where. */
  lemma IgnoresOccupancy(b1: Board, b2: Board, s: Square)
    requires Valid(b1) && Valid(b2)
    ensures GetMoves(b1, s) == GetMoves(b2, s)
  {
    assert GetFile(b1, s.file) == GetFile(b2, s.file);
    assert GetRank(b1, s.rank) == GetRank(b2, s.rank);
  }
}
