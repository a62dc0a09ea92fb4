/**
 * Knight (src/piece/knight.rs): for each offset magnitude pair (2, 1) and
 * (1, 2), the four sign combinations by checked `u8` arithmetic; pairs that
 * underflow, or that `build` rejects, are dropped. Occupancy is not looked at.
 */
module Knight {
  import opened Wrappers
  import opened Coordinates
  import Files
  import Ranks
  import opened Squares
  import opened Boards

  /** `KNIGHT_FILE_RANK_RELATIONSHIPS`: the (file, rank) offset magnitudes. */
  const FileRankRelationships: seq<(U8, U8)> := [(2, 1), (1, 2)]

  /** The four candidate coordinate pairs for one offset pair, in the source's order. */
  function Candidates(s: Square, modFile: U8, modRank: U8): seq<(Option<U8>, Option<U8>)> {
    var file, rank := Files.Value(s.file), Ranks.Value(s.rank);
    [ (CheckedSub(file, modFile), CheckedSub(rank, modRank)),
      (CheckedSub(file, modFile), CheckedAdd(rank, modRank)),
      (CheckedAdd(file, modFile), CheckedSub(rank, modRank)),
      (CheckedAdd(file, modFile), CheckedAdd(rank, modRank)) ]
  }

  /** One candidate through the filter / build / filter / `get_square` chain. */
  function Resolve(b: Board, c: (Option<U8>, Option<U8>)): seq<Square>
    requires Valid(b)
  {
    if c.0.Some? && c.1.Some? then
      match (Files.Build(c.0.value), Ranks.Build(c.1.value))
      case (Ok(f), Ok(r)) => [GetSquare(b, f, r)]
      case _ => []
    else []
  }

  function ResolveAll(b: Board, cs: seq<(Option<U8>, Option<U8>)>): seq<Square>
    requires Valid(b)
  {
    if cs == [] then [] else Resolve(b, cs[0]) + ResolveAll(b, cs[1..])
  }

  /** The `flat_map` over the offset table. */
  function FlatMap(b: Board, s: Square, rels: seq<(U8, U8)>): seq<Square>
    requires Valid(b)
  {
    if rels == [] then []
    else ResolveAll(b, Candidates(s, rels[0].0, rels[0].1)) + FlatMap(b, s, rels[1..])
  }

  /** `Knight::get_moves`. */
  function GetMoves(b: Board, s: Square): seq<Square>
    requires Valid(b)
  {
    FlatMap(b, s, FileRankRelationships)
  }

  /** A knight's jump: two files and one rank away, or one file and two ranks. */
  ghost predicate IsKnightJump(s: Square, m: Square) {
    || (Abs(m.file - s.file) == 2 && Abs(m.rank - s.rank) == 1)
    || (Abs(m.file - s.file) == 1 && Abs(m.rank - s.rank) == 2)
  }

  /** The square at offset (df, dr) from s, if it is on the board. */
  function Jump(s: Square, df: int, dr: int): seq<Square> {
    if 0 <= s.file + df < 8 && 0 <= s.rank + dr < 8 then [Square(s.file + df, s.rank + dr)] else []
  }

  /** The four sign combinations of one offset pair, in the source's order. */
  function Quad(s: Square, df: int, dr: int): seq<Square> {
    Jump(s, -df, -dr) + Jump(s, -df, dr) + Jump(s, df, -dr) + Jump(s, df, dr)
  }

  /** One offset pair yields exactly the squares at that distance, each once. */
  lemma QuadMembers(s: Square, df: int, dr: int)
    requires df > 0 && dr > 0
    ensures forall m :: m in Quad(s, df, dr) <==> Abs(m.file - s.file) == df && Abs(m.rank - s.rank) == dr
    ensures NoDup(Quad(s, df, dr)) && |Quad(s, df, dr)| <= 4
  {
    NoDupAppend(Jump(s, -df, -dr), Jump(s, -df, dr));
    NoDupAppend(Jump(s, -df, -dr) + Jump(s, -df, dr), Jump(s, df, -dr));
    NoDupAppend(Jump(s, -df, -dr) + Jump(s, -df, dr) + Jump(s, df, -dr), Jump(s, df, dr));
  }

  /** `v + d` as checked `u8` arithmetic sees it. */
  function Shift(v: U8, d: int): Option<U8> {
    if 0 <= v + d < 256 then Some(v + d) else None
  }

  /** A candidate whose coordinates are the shifted source coordinates resolves to that jump. */
  lemma ResolveIsJump(b: Board, s: Square, c: (Option<U8>, Option<U8>), df: int, dr: int)
    requires Valid(b)
    requires c.0 == Shift(Files.Value(s.file), df) && c.1 == Shift(Ranks.Value(s.rank), dr)
    ensures Resolve(b, c) == Jump(s, df, dr)
  {
  }

  /** One offset pair's four candidates resolve to its `Quad`. */
  lemma {:induction false} CandidatesResolve(b: Board, s: Square, df: U8, dr: U8)
    requires Valid(b)
    ensures ResolveAll(b, Candidates(s, df, dr)) == Quad(s, df, dr)
  {
    var cs := Candidates(s, df, dr);
    ResolveIsJump(b, s, cs[0], -(df as int), -(dr as int));
    ResolveIsJump(b, s, cs[1], -(df as int), dr);
    ResolveIsJump(b, s, cs[2], df, -(dr as int));
    ResolveIsJump(b, s, cs[3], df, dr);
    assert ResolveAll(b, cs[3..]) == Resolve(b, cs[3]) + ResolveAll(b, []);
    assert ResolveAll(b, cs[2..]) == Resolve(b, cs[2]) + ResolveAll(b, cs[3..]);
    assert ResolveAll(b, cs[1..]) == Resolve(b, cs[1]) + ResolveAll(b, cs[2..]);
  }

  /** The result is the eight offsets in table order, each kept exactly when it lands on the board. */
  lemma {:induction false} GetMovesInOrder(b: Board, s: Square)
    requires Valid(b)
    ensures GetMoves(b, s) == Quad(s, 2, 1) + Quad(s, 1, 2)
  {
    CandidatesResolve(b, s, 2, 1);
    CandidatesResolve(b, s, 1, 2);
    var rels := FileRankRelationships;
    assert FlatMap(b, s, rels[1..]) == ResolveAll(b, Candidates(s, 1, 2)) + FlatMap(b, s, []);
  }

  /** The (2, 1) jumps followed by the (1, 2) jumps are the knight's jumps, each once. */
  lemma BothQuads(s: Square, q1: seq<Square>, q2: seq<Square>)
    requires forall m :: m in q1 <==> Abs(m.file - s.file) == 2 && Abs(m.rank - s.rank) == 1
    requires forall m :: m in q2 <==> Abs(m.file - s.file) == 1 && Abs(m.rank - s.rank) == 2
    requires NoDup(q1) && |q1| <= 4 && NoDup(q2) && |q2| <= 4
    ensures forall m :: m in q1 + q2 <==> IsKnightJump(s, m)
    ensures NoDup(q1 + q2) && |q1 + q2| <= 8
  {
    NoDupAppend(q1, q2);
  }

  /**
   * Soundness and completeness: the result holds exactly the on-board squares
   * a knight's jump away, each once, so never the source and at most 8.
   */
  lemma Members(b: Board, s: Square)
    requires Valid(b)
    ensures forall m :: m in GetMoves(b, s) <==> IsKnightJump(s, m)
    ensures NoDup(GetMoves(b, s))
    ensures |GetMoves(b, s)| <= 8
  {
    GetMovesInOrder(b, s);
    QuadMembers(s, 2, 1);
    QuadMembers(s, 1, 2);
    BothQuads(s, Quad(s, 2, 1), Quad(s, 1, 2));
  }

  /** The result depends on the square only, never on what stands where. */
  lemma IgnoresOccupancy(b1: Board, b2: Board, s: Square)
    requires Valid(b1) && Valid(b2)
    ensures GetMoves(b1, s) == GetMoves(b2, s)
  {
    GetMovesInOrder(b1, s);
    GetMovesInOrder(b2, s);
  }

  /** From the centre of any board all 8 jumps are available. */
  lemma CentreHasEight(b: Board)
    requires Valid(b)
    ensures |GetMoves(b, Square(4, 4))| == 8
  {
    GetMovesInOrder(b, Square(4, 4));
  }

  /** From the middle of the A file only the 4 eastward jumps remain. */
  lemma EdgeHasFour(b: Board)
    requires Valid(b)
    ensures GetMoves(b, Square(0, 4)) == [Square(2, 3), Square(2, 5), Square(1, 2), Square(1, 6)]
  {
    GetMovesInOrder(b, Square(0, 4));
  }

  /** From a corner only (2,1) and (1,2). */
  lemma CornerHasTwo(b: Board)
    requires Valid(b)
    ensures GetMoves(b, Square(0, 0)) == [Square(2, 1), Square(1, 2)]
  {
    GetMovesInOrder(b, Square(0, 0));
  }
}
