/**
 * Rank: the row of a square, R1 to R8, as the ordinals 0 to 7 (src/rank.rs).
 * A Rank value is always on the board; constructing one from a larger
 * integer fails.
 */
module Ranks {
  import opened Wrappers
  import opened Coordinates

  /** `rank::MAX_NUMBER_OF_RANKS`. */
  const MaxNumberOfRanks: U8 := 8

  type Rank = x: int | 0 <= x < 8

  const R1: Rank := 0
  const R8: Rank := 7

  /** `Rank::build`: fails exactly for values off the board. */
  function Build(value: U8): (r: Result<Rank, BoundsError>)
    ensures r.Ok? <==> value < MaxNumberOfRanks
    ensures r.Ok? ==> r.value == value
  {
    if value < MaxNumberOfRanks then Ok(value) else Err(OutOfBounds(value))
  }

  /** `Rank::value`: the ordinal as a `u8`, always a valid index into a column of 8. */
  function Value(k: Rank): (v: U8)
    ensures v < MaxNumberOfRanks
  {
    k
  }

  /** The next rank upwards; None at R8. */
  function Next(k: Rank): (r: Option<Rank>)
    ensures r.None? <==> k == R8
    ensures r.Some? ==> r.value == k + 1
  {
    match k
    case 0 => Some(1)
    case 1 => Some(2)
    case 2 => Some(3)
    case 3 => Some(4)
    case 4 => Some(5)
    case 5 => Some(6)
    case 6 => Some(7)
    case _ => None
  }

  /** The previous rank downwards; None at R1. */
  function Previous(k: Rank): (r: Option<Rank>)
    ensures r.None? <==> k == R1
    ensures r.Some? ==> r.value == k - 1
  {
    match k
    case 0 => None
    case 1 => Some(0)
    case 2 => Some(1)
    case 3 => Some(2)
    case 4 => Some(3)
    case 5 => Some(4)
    case 6 => Some(5)
    case _ => Some(6)
  }

  /** `Rank::next_by(n)`: a jump of n ranks upwards, failing rather than wrapping. */
  function NextBy(k: Rank, n: U8): (r: Result<Rank, BoundsError>)
    ensures r.Ok? <==> k + n < MaxNumberOfRanks
    ensures r.Ok? ==> r.value == k + n
  {
    match CheckedAdd(Value(k), n)
    case None => Err(OutOfBounds(k + n))
    case Some(v) => Build(v)
  }

  /** `Rank::previous_by(n)`: a jump of n ranks downwards, failing rather than wrapping. */
  function PreviousBy(k: Rank, n: U8): (r: Result<Rank, BoundsError>)
    ensures r.Ok? <==> n <= k
    ensures r.Ok? ==> r.value == k - n
  {
    match CheckedSub(Value(k), n)
    case None => Err(OutOfBounds(k - n))
    case Some(v) => Build(v)
  }

  /** `Rank::iter_ranks`: the values that are ranks, in order; the others are dropped. */
  function IterRanks(values: seq<U8>): (r: seq<Rank>)
    ensures forall x :: x in r <==> x in values && x < MaxNumberOfRanks
    ensures (forall i :: 0 <= i < |values| ==> values[i] < MaxNumberOfRanks) ==> r == values
  {
    if values == [] then []
    else match Build(values[0])
      case Ok(k) => [k] + IterRanks(values[1..])
      case Err(_) => IterRanks(values[1..])
  }

  /** On one value the filter keeps it exactly when it is a rank. */
  lemma IterRanksSingle(v: U8)
    ensures IterRanks([v]) == if v < MaxNumberOfRanks then [v] else []
  {
    assert [v][1..] == [];
  }

  /**
   * The filter runs value by value, so it distributes over concatenation:
   * with IterRanksSingle this fixes the result as the kept values in their order.
   */
  lemma {:induction false} IterRanksAppend(a: seq<U8>, c: seq<U8>)
    ensures IterRanks(a + c) == IterRanks(a) + IterRanks(c)
  {
    if a == [] {
      assert a + c == c;
    } else {
      assert (a + c)[0] == a[0];
      assert (a + c)[1..] == a[1..] + c;
      IterRanksAppend(a[1..], c);
    }
  }

  lemma PreviousOfNext(k: Rank)
    requires Next(k).Some?
    ensures Previous(Next(k).value) == Some(k)
  {
  }

  lemma NextOfPrevious(k: Rank)
    requires Previous(k).Some?
    ensures Next(Previous(k).value) == Some(k)
  {
  }

  /** A jump of one agrees with the single step, in both directions. */
  lemma StepByOne(k: Rank)
    ensures NextBy(k, 1).Ok? <==> Next(k).Some?
    ensures NextBy(k, 1).Ok? ==> NextBy(k, 1).value == Next(k).value
    ensures PreviousBy(k, 1).Ok? <==> Previous(k).Some?
    ensures PreviousBy(k, 1).Ok? ==> PreviousBy(k, 1).value == Previous(k).value
  {
  }

  /** Jumping up then down by the same amount returns to the start. */
  lemma PreviousByOfNextBy(k: Rank, n: U8)
    requires NextBy(k, n).Ok?
    ensures PreviousBy(NextBy(k, n).value, n) == Ok(k)
  {
  }

  /** Value and Build are inverse. */
  lemma BuildOfValue(k: Rank)
    ensures Build(Value(k)) == Ok(k)
  {
  }
}
