/**
 * Bishop (src/piece/bishop.rs): the squares of the positive diagonal
 * through the bishop's square, then those of the negative diagonal, the
 * bishop's own square dropped from each. Occupancy is not looked at.
 */
module Bishop {
  import opened Coordinates
  import opened Squares
  import opened Boards

  /** `Bishop::get_moves`: the diagonals, built as `Board::get_diagonals` builds them, less the source. */
  function GetMoves(b: Board, s: Square): seq<Square>
    requires Valid(b)
  {
    Lookup(b, Without(PositiveDiagonal(s), s)) + Lookup(b, Without(NegativeDiagonal(s), s))
  }

  /** m shares a diagonal with s. */
  ghost predicate OnDiagonal(s: Square, m: Square) {
    Abs(m.file - s.file) == Abs(m.rank - s.rank)
  }

  /** Lying on a diagonal means lying on the positive or on the negative one. */
  lemma OnDiagonalCases(s: Square, m: Square)
    ensures OnDiagonal(s, m) <==> m.file - s.file == m.rank - s.rank || m.file - s.file == s.rank - m.rank
  {
  }

  /** Soundness and completeness: every other square on a diagonal through s, and nothing else. */
  lemma Members(b: Board, s: Square)
    requires Valid(b)
    ensures forall m :: m in GetMoves(b, s) <==> m != s && OnDiagonal(s, m)
  {
    var p, n := PositiveDiagonal(s), NegativeDiagonal(s);
    assert GetMoves(b, s) == Without(p, s) + Without(n, s);
    PositiveDiagonalMembers(s);
    NegativeDiagonalMembers(s);
    forall m
      ensures m in GetMoves(b, s) <==> m != s && OnDiagonal(s, m)
    {
      OnDiagonalCases(s, m);
    }
  }

  /** The positive diagonal less s: its L + R squares, each once. */
  lemma PositiveShape(s: Square)
    ensures var w := Without(PositiveDiagonal(s), s);
      && NoDup(w)
      && |w| == PositiveLeftDiff(s) + PositiveRightDiff(s)
      && forall i :: 0 <= i < |w| ==> w[i] != s && w[i].file - s.file == w[i].rank - s.rank
  {
    var d := PositiveDiagonal(s);
    PositiveDiagonalMembers(s);
    PositiveDiagonalAt(s);
    assert s in d;
    Drop(d, s);
  }

  /** The negative diagonal less s: its L' + R' squares, each once. */
  lemma NegativeShape(s: Square)
    ensures var w := Without(NegativeDiagonal(s), s);
      && NoDup(w)
      && |w| == NegativeLeftDiff(s) + NegativeRightDiff(s)
      && forall i :: 0 <= i < |w| ==> w[i] != s && w[i].file - s.file == s.rank - w[i].rank
  {
    var d := NegativeDiagonal(s);
    NegativeDiagonalMembers(s);
    NegativeDiagonalAt(s);
    assert s in d;
    Drop(d, s);
  }

  /** The two diagonals less s meet nowhere, so together they list each square once. */
  lemma JoinShapes(s: Square, wp: seq<Square>, wn: seq<Square>)
    requires NoDup(wp) && forall i :: 0 <= i < |wp| ==> wp[i] != s && wp[i].file - s.file == wp[i].rank - s.rank
    requires NoDup(wn) && forall i :: 0 <= i < |wn| ==> wn[i] != s && wn[i].file - s.file == s.rank - wn[i].rank
    ensures NoDup(wp + wn)
    ensures forall i :: 0 <= i < |wp| ==> (wp + wn)[i].file - s.file == (wp + wn)[i].rank - s.rank
    ensures forall i :: |wp| <= i < |wp + wn| ==> (wp + wn)[i].file - s.file == s.rank - (wp + wn)[i].rank
  {
    assert forall x :: x in wp ==> x !in wn;
    NoDupAppend(wp, wn);
  }

  /**
   * The result lists each square once: first the L + R squares of the
   * positive diagonal, then the L' + R' squares of the negative one, where L,
   * R, L', R' are the step counts to the board's edge along each.
   */
  lemma Shape(b: Board, s: Square)
    requires Valid(b)
    ensures var moves := GetMoves(b, s);
      && NoDup(moves)
      && |moves| == PositiveLeftDiff(s) + PositiveRightDiff(s) + NegativeLeftDiff(s) + NegativeRightDiff(s)
      && (forall i :: 0 <= i < PositiveLeftDiff(s) + PositiveRightDiff(s) ==>
            moves[i].file - s.file == moves[i].rank - s.rank)
      && (forall i :: PositiveLeftDiff(s) + PositiveRightDiff(s) <= i < |moves| ==>
            moves[i].file - s.file == s.rank - moves[i].rank)
  {
    var wp, wn := Without(PositiveDiagonal(s), s), Without(NegativeDiagonal(s), s);
    assert GetMoves(b, s) == wp + wn;
    PositiveShape(s);
    NegativeShape(s);
    JoinShapes(s, wp, wn);
  }

  /** The result depends on the square only, never on what stands where. */
  lemma IgnoresOccupancy(b1: Board, b2: Board, s: Square)
    requires Valid(b1) && Valid(b2)
    ensures GetMoves(b1, s) == GetMoves(b2, s)
  {
  }

  /** The number of moves is the number of steps to the board's edge along the four half-diagonals. */
  lemma Length(b: Board, s: Square)
    requires Valid(b)
    ensures |GetMoves(b, s)| == PositiveLeftDiff(s) + PositiveRightDiff(s) + NegativeLeftDiff(s) + NegativeRightDiff(s)
  {
    PositiveShape(s);
    NegativeShape(s);
  }

  /** The unit tests' counts: 13 from the centre square (4, 4). */
  lemma CentreCount(b: Board, s: Square)
    requires Valid(b) && s.file == 4 && s.rank == 4
    ensures |GetMoves(b, s)| == 13
  {
    Length(b, s);
  }

  /** The unit tests' counts: 11 from (2, 4) and from (4, 2), two steps from an edge. */
  lemma NearEdgeCounts(b: Board, s: Square)
    requires Valid(b) && ((s.file == 2 && s.rank == 4) || (s.file == 4 && s.rank == 2))
    ensures |GetMoves(b, s)| == 11
  {
    Length(b, s);
  }

  /** The unit tests' counts: 7 from (0, 4) on the A file and (7, 4) on the H file. */
  lemma FileEdgeCounts(b: Board, s: Square)
    requires Valid(b) && (s.file == 0 || s.file == 7) && s.rank == 4
    ensures |GetMoves(b, s)| == 7
  {
    Length(b, s);
  }

  /** The unit tests' counts: 7 from (4, 0) on the first rank and (4, 7) on the eighth. */
  lemma RankEdgeCounts(b: Board, s: Square)
    requires Valid(b) && s.file == 4 && (s.rank == 0 || s.rank == 7)
    ensures |GetMoves(b, s)| == 7
  {
    Length(b, s);
  }
}
