/**
 * Square: a (file, rank) coordinate pair with its four orthogonal neighbours
 * (src/square.rs), and the facts about sequences of squares that the move
 * rules share. Two squares are equal exactly when their coordinates are.
 */
module Squares {
  import opened Wrappers
  import opened Coordinates
  import Files
  import Ranks

  datatype Square = Square(file: Files.File, rank: Ranks.Rank)

  /** `Square::build(file, rank)`: fails when either coordinate is off the board. */
  function Build(file: U8, rank: U8): (r: Result<Square, BoundsError>)
    ensures r.Ok? <==> file < Files.MaxNumberOfFiles && rank < Ranks.MaxNumberOfRanks
    ensures r.Ok? ==> r.value.file == file && r.value.rank == rank
  {
    var f :- Files.Build(file);
    var k :- Ranks.Build(rank);
    Ok(Square(f, k))
  }

  /** The square one file to the left; None on file A. */
  function Left(s: Square): (r: Option<Square>)
    ensures r.None? <==> s.file == Files.A
    ensures r.Some? ==> r.value.rank == s.rank && r.value.file == s.file - 1
  {
    match Files.Previous(s.file)
    case None => None
    case Some(f) => Some(Square(f, s.rank))
  }

  /** The square one file to the right; None on file H. */
  function Right(s: Square): (r: Option<Square>)
    ensures r.None? <==> s.file == Files.H
    ensures r.Some? ==> r.value.rank == s.rank && r.value.file == s.file + 1
  {
    match Files.Next(s.file)
    case None => None
    case Some(f) => Some(Square(f, s.rank))
  }

  /** The square one rank up; None on rank R8. */
  function Up(s: Square): (r: Option<Square>)
    ensures r.None? <==> s.rank == Ranks.R8
    ensures r.Some? ==> r.value.file == s.file && r.value.rank == s.rank + 1
  {
    match Ranks.Next(s.rank)
    case None => None
    case Some(k) => Some(Square(s.file, k))
  }

  /** The square one rank down; None on rank R1. */
  function Down(s: Square): (r: Option<Square>)
    ensures r.None? <==> s.rank == Ranks.R1
    ensures r.Some? ==> r.value.file == s.file && r.value.rank == s.rank - 1
  {
    match Ranks.Previous(s.rank)
    case None => None
    case Some(k) => Some(Square(s.file, k))
  }

  lemma RightOfLeft(s: Square)
    requires Left(s).Some?
    ensures Right(Left(s).value) == Some(s)
  {
  }

  lemma LeftOfRight(s: Square)
    requires Right(s).Some?
    ensures Left(Right(s).value) == Some(s)
  {
  }

  lemma UpOfDown(s: Square)
    requires Down(s).Some?
    ensures Up(Down(s).value) == Some(s)
  {
  }

  lemma DownOfUp(s: Square)
    requires Up(s).Some?
    ensures Down(Up(s).value) == Some(s)
  {
  }

  // ---------------------------------------------------------------------
  // Sequences of squares
  // ---------------------------------------------------------------------

  /** No square occurs twice. */
  ghost predicate NoDup(xs: seq<Square>) {
    forall i, j :: 0 <= i < j < |xs| ==> xs[i] != xs[j]
  }

  /** `iter::zip`: pairs files with ranks position by position, stopping at the shorter. */
  function Zip(files: seq<Files.File>, ranks: seq<Ranks.Rank>): (r: seq<Square>)
    ensures |r| == Min(|files|, |ranks|)
    ensures forall i :: 0 <= i < |r| ==> r[i] == Square(files[i], ranks[i])
  {
    if files == [] || ranks == [] then []
    else [Square(files[0], ranks[0])] + Zip(files[1..], ranks[1..])
  }

  /**
   * The filter `sq != source` shared by the sliding pieces: every square
   * except s, in the original order.
   */
  function Without(xs: seq<Square>, s: Square): (r: seq<Square>)
    ensures forall x :: x in r <==> x in xs && x != s
    ensures |r| <= |xs|
    ensures s !in xs ==> r == xs
    ensures NoDup(xs) ==> NoDup(r) && (s in xs ==> |r| == |xs| - 1)
  {
    if xs == [] then []
    else
      NoDupSplit(xs);
      if xs[0] == s then Without(xs[1..], s)
      else [xs[0]] + Without(xs[1..], s)
  }

  /** Dropping a square that occurs once leaves one fewer, each from the original and none equal to it. */
  lemma Drop(d: seq<Square>, s: Square)
    requires NoDup(d) && s in d
    ensures var w := Without(d, s);
      NoDup(w) && |w| == |d| - 1 && forall i :: 0 <= i < |w| ==> w[i] in d && w[i] != s
  {
    var w := Without(d, s);
    assert forall i :: 0 <= i < |w| ==> w[i] in w;
  }

  /** A sequence is duplicate-free exactly when its tail is and its head is not in the tail. */
  lemma NoDupSplit(xs: seq<Square>)
    requires xs != []
    ensures NoDup(xs) <==> xs[0] !in xs[1..] && NoDup(xs[1..])
  {
    var rest := xs[1..];
    if NoDup(xs) {
      forall i, j | 0 <= i < j < |rest| ensures rest[i] != rest[j] {
        assert rest[i] == xs[i + 1] && rest[j] == xs[j + 1];
      }
    }
    if xs[0] !in rest && NoDup(rest) {
      forall i, j | 0 <= i < j < |xs| ensures xs[i] != xs[j] {
        assert xs[j] == rest[j - 1];
        if i > 0 {
          assert xs[i] == rest[i - 1];
        }
      }
    }
  }

  /** Filtering a concatenation filters each part and keeps them in order. */
  lemma {:induction false} WithoutAppend(a: seq<Square>, c: seq<Square>, s: Square)
    ensures Without(a + c, s) == Without(a, s) + Without(c, s)
  {
    if a == [] {
      assert a + c == c;
    } else {
      assert (a + c)[0] == a[0];
      assert (a + c)[1..] == a[1..] + c;
      WithoutAppend(a[1..], c, s);
    }
  }

  /** Two duplicate-free sequences with no square in common concatenate to one. */
  lemma NoDupAppend(a: seq<Square>, c: seq<Square>)
    requires NoDup(a) && NoDup(c)
    requires forall x :: x in a ==> x !in c
    ensures NoDup(a + c)
  {
    forall i, j | 0 <= i < j < |a + c|
      ensures (a + c)[i] != (a + c)[j]
    {
      if j >= |a| && i < |a| {
        assert a[i] in a;
        assert c[j - |a|] in c;
      }
    }
  }

  /** A duplicate-free sequence has as many elements as its set. */
  lemma {:induction false} NoDupCard(xs: seq<Square>)
    requires NoDup(xs)
    ensures |set x | x in xs| == |xs|
  {
    if xs != [] {
      var rest := xs[1..];
      NoDupSplit(xs);
      NoDupCard(rest);
      assert (set x | x in xs) == {xs[0]} + (set x | x in rest);
      assert xs[0] !in (set x | x in rest);
    }
  }
}
