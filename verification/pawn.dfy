/**
 * Pawn (src/piece/pawn.rs): one step forward onto an empty square, a
 * second step from a pawn that has not moved when both squares are empty,
 * and a diagonal step forward onto a square holding an opposing piece.
 * White moves up the ranks, Black down.
 */
module Pawn {
  import opened Wrappers
  import opened Coordinates
  import Files
  import Ranks
  import opened Squares
  import opened Pieces
  import opened Boards

  /** The rank direction a pawn of colour c moves in. */
  function Forward(c: Color): int {
    match c
    case White => 1
    case Black => -1
  }

  /**
   * m is a forward move for a pawn on s moving `forward` ranks per step: a
   * single step onto an empty square, or a double step from an unmoved pawn
   * over an empty square onto an empty square.
   */
  ghost predicate Advance(b: Board, s: Square, hasMoved: bool, forward: int, m: Square) {
    var one := s.rank + forward;
    && 0 <= one < 8
    && m.file == s.file
    && (|| (m.rank == one && IsEmpty(b, m))
        || (m.rank == s.rank + 2 * forward && !hasMoved && IsEmpty(b, Square(s.file, one)) && IsEmpty(b, m)))
  }

  /** m is a capture one file aside (df is -1 or 1): one rank ahead, holding a piece not of `color`. */
  ghost predicate Capture(b: Board, s: Square, color: Color, forward: int, df: int, m: Square) {
    && 0 <= s.rank + forward < 8
    && m.file == s.file + df
    && m.rank == s.rank + forward
    && !IsEmpty(b, m)
    && !PieceMatchesColor(b, m, color)
  }

  /** m is a move for a pawn of colour `color` on s; nothing is a move when no rank lies ahead. */
  ghost predicate PawnMove(b: Board, s: Square, color: Color, hasMoved: bool, forward: int, m: Square) {
    Advance(b, s, hasMoved, forward, m) || Capture(b, s, color, forward, -1, m) || Capture(b, s, color, forward, 1, m)
  }

  /** res lists exactly the pawn's moves, each once. */
  ghost predicate IsPawnMoves(b: Board, s: Square, color: Color, hasMoved: bool, forward: int, res: seq<Square>) {
    && NoDup(res)
    && forall m :: m in res <==> PawnMove(b, s, color, hasMoved, forward, m)
  }

  /**
   * One capture test of `get_white_moves` / `get_black_moves`: the square at
   * `file` (when `previous_by` / `next_by` produced one) and `rankOne`, if it
   * holds a piece not of `color`.
   */
  method CaptureAt(color: Color, b: Board, file: Result<Files.File, BoundsError>, rankOne: Ranks.Rank)
    returns (res: seq<Square>)
    requires Valid(b)
    ensures forall m :: m in res <==>
      file.Ok? && m == Square(file.value, rankOne) && !IsEmpty(b, m) && !PieceMatchesColor(b, m, color)
    ensures |res| <= 1
  {
    res := [];
    match file {
      case Err(_) =>
      case Ok(f) =>
        var target := GetSquare(b, f, rankOne);
        if !IsEmpty(b, target) && !PieceMatchesColor(b, target, color) {
          res := [target];
        }
    }
  }

  /** The forward moves and the two captures together are the pawn's moves, each once. */
  lemma Assemble(b: Board, s: Square, color: Color, hasMoved: bool, forward: int,
                 advances: seq<Square>, left: seq<Square>, right: seq<Square>)
    requires 0 <= s.rank + forward < 8
    requires |advances| <= 2 && NoDup(advances)
    requires forall m :: m in advances <==> Advance(b, s, hasMoved, forward, m)
    requires |left| <= 1 && forall m :: m in left <==> Capture(b, s, color, forward, -1, m)
    requires |right| <= 1 && forall m :: m in right <==> Capture(b, s, color, forward, 1, m)
    ensures IsPawnMoves(b, s, color, hasMoved, forward, advances + left + right)
    ensures |advances + left + right| <= 4
  {
    NoDupAppend(advances, left);
    NoDupAppend(advances + left, right);
  }

  /** `Pawn::get_white_moves`: forward is up the ranks. */
  method GetWhiteMoves(color: Color, hasMoved: bool, b: Board, s: Square) returns (res: seq<Square>)
    requires Valid(b)
    ensures IsPawnMoves(b, s, color, hasMoved, 1, res)
    ensures |res| <= 4
  {
    res := [];
    match Ranks.NextBy(s.rank, 1) {
      case Err(_) =>
      case Ok(rankOne) =>
        var ahead := GetSquare(b, s.file, rankOne);
        if IsEmpty(b, ahead) {
          res := res + [ahead];
          if !hasMoved {
            match Ranks.NextBy(rankOne, 1) {
              case Err(_) =>
              case Ok(rankTwo) =>
                var twoAhead := GetSquare(b, s.file, rankTwo);
                if IsEmpty(b, twoAhead) {
                  res := res + [twoAhead];
                }
            }
          }
        }
        assert forall m :: m in res <==> Advance(b, s, hasMoved, 1, m);
        var left := CaptureAt(color, b, Files.PreviousBy(s.file, 1), rankOne);
        var right := CaptureAt(color, b, Files.NextBy(s.file, 1), rankOne);
        Assemble(b, s, color, hasMoved, 1, res, left, right);
        res := res + left + right;
    }
  }

  /** `Pawn::get_black_moves`: `get_white_moves` with `previous_by` in place of `next_by` on ranks. */
  method GetBlackMoves(color: Color, hasMoved: bool, b: Board, s: Square) returns (res: seq<Square>)
    requires Valid(b)
    ensures IsPawnMoves(b, s, color, hasMoved, -1, res)
    ensures |res| <= 4
  {
    res := [];
    match Ranks.PreviousBy(s.rank, 1) {
      case Err(_) =>
      case Ok(rankOne) =>
        var ahead := GetSquare(b, s.file, rankOne);
        if IsEmpty(b, ahead) {
          res := res + [ahead];
          if !hasMoved {
            match Ranks.PreviousBy(rankOne, 1) {
              case Err(_) =>
              case Ok(rankTwo) =>
                var twoAhead := GetSquare(b, s.file, rankTwo);
                if IsEmpty(b, twoAhead) {
                  res := res + [twoAhead];
                }
            }
          }
        }
        assert forall m :: m in res <==> Advance(b, s, hasMoved, -1, m);
        var left := CaptureAt(color, b, Files.PreviousBy(s.file, 1), rankOne);
        var right := CaptureAt(color, b, Files.NextBy(s.file, 1), rankOne);
        Assemble(b, s, color, hasMoved, -1, res, left, right);
        res := res + left + right;
    }
  }

  /** `Pawn::get_moves`: the colour picks the direction; no move lands on a piece of the pawn's own colour. */
  method GetMoves(color: Color, hasMoved: bool, b: Board, s: Square) returns (res: seq<Square>)
    requires Valid(b)
    ensures IsPawnMoves(b, s, color, hasMoved, Forward(color), res)
    ensures |res| <= 4
    ensures forall m :: m in res ==> m != s && !PieceMatchesColor(b, m, color)
  {
    match color {
      case White => res := GetWhiteMoves(color, hasMoved, b, s);
      case Black => res := GetBlackMoves(color, hasMoved, b, s);
    }
  }

  /** With no rank ahead the pawn has no move at all. */
  lemma LastRankNoMoves(b: Board, s: Square, color: Color, hasMoved: bool, forward: int, res: seq<Square>)
    requires IsPawnMoves(b, s, color, hasMoved, forward, res)
    requires !(0 <= s.rank + forward < 8)
    ensures res == []
  {
    assert (set m | m in res) == {};
    NoDupCard(res);
  }

  /** A piece directly ahead, of either colour, stops both forward moves. */
  lemma BlockedAhead(b: Board, s: Square, color: Color, hasMoved: bool, forward: int, res: seq<Square>)
    requires IsPawnMoves(b, s, color, hasMoved, forward, res)
    requires 0 <= s.rank + forward < 8 && !IsEmpty(b, Square(s.file, s.rank + forward))
    ensures forall m :: m in res ==> m.file != s.file
  {
  }

  /** On a board with no pieces, an unmoved white pawn on e2 has exactly e3 and e4. */
  lemma WhiteStartingRankEmptyBoard(b: Board, res: seq<Square>)
    requires Valid(b) && b.occupants == map[]
    requires IsPawnMoves(b, Square(4, 1), White, false, Forward(White), res)
    ensures |res| == 2 && Square(4, 2) in res && Square(4, 3) in res
  {
    assert (set m | m in res) == {Square(4, 2), Square(4, 3)};
    NoDupCard(res);
  }

  /** On a board with no pieces, a white pawn that has moved, on e3, has e4 only. */
  lemma WhiteNonStartingRankEmptyBoard(b: Board, res: seq<Square>)
    requires Valid(b) && b.occupants == map[]
    requires IsPawnMoves(b, Square(4, 2), White, true, Forward(White), res)
    ensures res == [Square(4, 3)]
  {
    assert (set m | m in res) == {Square(4, 3)};
    NoDupCard(res);
    assert res[0] in res;
  }

  /** On a board with no pieces, an unmoved black pawn on e7 has exactly e6 and e5. */
  lemma BlackStartingRankEmptyBoard(b: Board, res: seq<Square>)
    requires Valid(b) && b.occupants == map[]
    requires IsPawnMoves(b, Square(4, 6), Black, false, Forward(Black), res)
    ensures |res| == 2 && Square(4, 5) in res && Square(4, 4) in res
  {
    assert (set m | m in res) == {Square(4, 5), Square(4, 4)};
    NoDupCard(res);
  }

  /** On a board with no pieces, a black pawn that has moved, on e6, has e5 only. */
  lemma BlackNonStartingRankEmptyBoard(b: Board, res: seq<Square>)
    requires Valid(b) && b.occupants == map[]
    requires IsPawnMoves(b, Square(4, 5), Black, true, Forward(Black), res)
    ensures res == [Square(4, 4)]
  {
    assert (set m | m in res) == {Square(4, 4)};
    NoDupCard(res);
    assert res[0] in res;
  }

  /** A piece of either colour on e3 leaves a white pawn on e2 without moves. */
  lemma WhitePawnBlockedInFront(b: Board, blocker: Piece, res: seq<Square>)
    requires Valid(b) && b.occupants == map[]
    requires IsPawnMoves(AddPiece(b, blocker, 4, 2), Square(4, 1), White, false, Forward(White), res)
    ensures res == []
  {
    assert (set m | m in res) == {};
    NoDupCard(res);
  }

  /** A piece of either colour on e4 takes e4 from a white pawn on e2. */
  lemma WhitePawnFarBlockedInFront(b: Board, blocker: Piece, res: seq<Square>)
    requires Valid(b) && b.occupants == map[]
    requires IsPawnMoves(AddPiece(b, blocker, 4, 3), Square(4, 1), White, false, Forward(White), res)
    ensures Square(4, 3) !in res && Square(4, 2) in res
  {
  }

  /** Black pieces on d3 and f3 are both captures for a white pawn on e2. */
  lemma WhitePawnAvailableCaptures(b: Board, p: Piece, q: Piece, res: seq<Square>)
    requires Valid(b) && b.occupants == map[]
    requires p.color == Black && q.color == Black
    requires IsPawnMoves(AddPiece(AddPiece(b, p, 3, 2), q, 5, 2), Square(4, 1), White, false, Forward(White), res)
    ensures Square(3, 2) in res && Square(5, 2) in res
  {
  }

  /** White pieces on d3 and f3 are not captures for a white pawn on e2. */
  lemma WhitePawnFriendsOnCaptures(b: Board, p: Piece, q: Piece, res: seq<Square>)
    requires Valid(b) && b.occupants == map[]
    requires p.color == White && q.color == White
    requires IsPawnMoves(AddPiece(AddPiece(b, p, 3, 2), q, 5, 2), Square(4, 1), White, false, Forward(White), res)
    ensures Square(3, 2) !in res && Square(5, 2) !in res
  {
  }

  /** A piece of either colour on e6 leaves a black pawn on e7 without moves. */
  lemma BlackPawnBlockedInFront(b: Board, blocker: Piece, res: seq<Square>)
    requires Valid(b) && b.occupants == map[]
    requires IsPawnMoves(AddPiece(b, blocker, 4, 5), Square(4, 6), Black, false, Forward(Black), res)
    ensures res == []
  {
    assert (set m | m in res) == {};
    NoDupCard(res);
  }

  /** A piece of either colour on e5 takes e5 from a black pawn on e7. */
  lemma BlackPawnFarBlockedInFront(b: Board, blocker: Piece, res: seq<Square>)
    requires Valid(b) && b.occupants == map[]
    requires IsPawnMoves(AddPiece(b, blocker, 4, 4), Square(4, 6), Black, false, Forward(Black), res)
    ensures Square(4, 4) !in res && Square(4, 5) in res
  {
  }

  /** White pieces on d6 and f6 are both captures for a black pawn on e7. */
  lemma BlackPawnAvailableCaptures(b: Board, p: Piece, q: Piece, res: seq<Square>)
    requires Valid(b) && b.occupants == map[]
    requires p.color == White && q.color == White
    requires IsPawnMoves(AddPiece(AddPiece(b, p, 3, 5), q, 5, 5), Square(4, 6), Black, false, Forward(Black), res)
    ensures Square(3, 5) in res && Square(5, 5) in res
  {
  }

  /** Black pieces on d6 and f6 are not captures for a black pawn on e7. */
  lemma BlackPawnFriendsOnCaptures(b: Board, p: Piece, q: Piece, res: seq<Square>)
    requires Valid(b) && b.occupants == map[]
    requires p.color == Black && q.color == Black
    requires IsPawnMoves(AddPiece(AddPiece(b, p, 3, 5), q, 5, 5), Square(4, 6), Black, false, Forward(Black), res)
    ensures Square(3, 5) !in res && Square(5, 5) !in res
  {
  }
}
