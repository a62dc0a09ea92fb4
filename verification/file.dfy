/**
 * File: the column of a square, A to H, as the ordinals 0 to 7 (src/file.rs).
 * A File value is always on the board; constructing one from a larger
 * integer fails.
 */
module Files {
  import opened Wrappers
  import opened Coordinates

  /** `file::MAX_NUMBER_OF_FILES`. */
  const MaxNumberOfFiles: U8 := 8

  type File = x: int | 0 <= x < 8

  const A: File := 0
  const H: File := 7

  /** `File::build`: fails exactly for values off the board. */
  function Build(value: U8): (r: Result<File, BoundsError>)
    ensures r.Ok? <==> value < MaxNumberOfFiles
    ensures r.Ok? ==> r.value == value
  {
    if value < MaxNumberOfFiles then Ok(value) else Err(OutOfBounds(value))
  }

  /** `File::value`: the ordinal as a `u8`, always a valid index into a row of 8. */
  function Value(f: File): (v: U8)
    ensures v < MaxNumberOfFiles
  {
    f
  }

  /** The next file to the right; None at H. */
  function Next(f: File): (r: Option<File>)
    ensures r.None? <==> f == H
    ensures r.Some? ==> r.value == f + 1
  {
    match f
    case 0 => Some(1)
    case 1 => Some(2)
    case 2 => Some(3)
    case 3 => Some(4)
    case 4 => Some(5)
    case 5 => Some(6)
    case 6 => Some(7)
    case _ => None
  }

  /** The previous file to the left; None at A. */
  function Previous(f: File): (r: Option<File>)
    ensures r.None? <==> f == A
    ensures r.Some? ==> r.value == f - 1
  {
    match f
    case 0 => None
    case 1 => Some(0)
    case 2 => Some(1)
    case 3 => Some(2)
    case 4 => Some(3)
    case 5 => Some(4)
    case 6 => Some(5)
    case _ => Some(6)
  }

  /** `File::next_by(n)`: a jump of n files to the right, failing rather than wrapping. */
  function NextBy(f: File, n: U8): (r: Result<File, BoundsError>)
    ensures r.Ok? <==> f + n < MaxNumberOfFiles
    ensures r.Ok? ==> r.value == f + n
  {
    match CheckedAdd(Value(f), n)
    case None => Err(OutOfBounds(f + n))
    case Some(v) => Build(v)
  }

  /** `File::previous_by(n)`: a jump of n files to the left, failing rather than wrapping. */
  function PreviousBy(f: File, n: U8): (r: Result<File, BoundsError>)
    ensures r.Ok? <==> n <= f
    ensures r.Ok? ==> r.value == f - n
  {
    match CheckedSub(Value(f), n)
    case None => Err(OutOfBounds(f - n))
    case Some(v) => Build(v)
  }

  /** `File::iter_files`: the values that are files, in order; the others are dropped. */
  function IterFiles(values: seq<U8>): (r: seq<File>)
    ensures forall x :: x in r <==> x in values && x < MaxNumberOfFiles
    ensures (forall i :: 0 <= i < |values| ==> values[i] < MaxNumberOfFiles) ==> r == values
  {
    if values == [] then []
    else match Build(values[0])
      case Ok(f) => [f] + IterFiles(values[1..])
      case Err(_) => IterFiles(values[1..])
  }

  /** On one value the filter keeps it exactly when it is a file. */
  lemma IterFilesSingle(v: U8)
    ensures IterFiles([v]) == if v < MaxNumberOfFiles then [v] else []
  {
    assert [v][1..] == [];
  }

  /**
   * The filter runs value by value, so it distributes over concatenation:
   * with IterFilesSingle this fixes the result as the kept values in their order.
   */
  lemma {:induction false} IterFilesAppend(a: seq<U8>, c: seq<U8>)
    ensures IterFiles(a + c) == IterFiles(a) + IterFiles(c)
  {
    if a == [] {
      assert a + c == c;
    } else {
      assert (a + c)[0] == a[0];
      assert (a + c)[1..] == a[1..] + c;
      IterFilesAppend(a[1..], c);
    }
  }

  lemma PreviousOfNext(f: File)
    requires Next(f).Some?
    ensures Previous(Next(f).value) == Some(f)
  {
  }

  lemma NextOfPrevious(f: File)
    requires Previous(f).Some?
    ensures Next(Previous(f).value) == Some(f)
  {
  }

  /** A jump of one agrees with the single step, in both directions. */
  lemma StepByOne(f: File)
    ensures NextBy(f, 1).Ok? <==> Next(f).Some?
    ensures NextBy(f, 1).Ok? ==> NextBy(f, 1).value == Next(f).value
    ensures PreviousBy(f, 1).Ok? <==> Previous(f).Some?
    ensures PreviousBy(f, 1).Ok? ==> PreviousBy(f, 1).value == Previous(f).value
  {
  }

  /** Jumping right then left by the same amount returns to the start. */
  lemma PreviousByOfNextBy(f: File, n: U8)
    requires NextBy(f, n).Ok?
    ensures PreviousBy(NextBy(f, n).value, n) == Ok(f)
  {
  }

  /** Value and Build are inverse. */
  lemma BuildOfValue(f: File)
    ensures Build(Value(f)) == Ok(f)
  {
  }
}
