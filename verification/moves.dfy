/**
 * The `Piece` trait's `get_moves` (src/piece.rs), dispatched to the kind's
 * own rule. Only the queen and the pawn look at the pieces on the board;
 * the knight, king, bishop and rook list their squares whatever stands there.
 */
module Moves {
  import opened Squares
  import opened Boards
  import P = Pieces
  import Knight
  import King
  import Bishop
  import Rook
  import Queen
  import Pawn

  /** `get_moves` of the piece p standing on s. */
  method GetMoves(p: P.Piece, b: Board, s: Square) returns (moves: seq<Square>)
    requires Valid(b)
    ensures s !in moves
    ensures p.Knight? ==> moves == Knight.GetMoves(b, s)
    ensures p.King? ==> forall m :: m in moves <==> King.Adjacent(s, m)
    ensures p.King? ==> forall i, j :: 0 <= i < j < |moves| ==> King.Before(moves[i], moves[j])
    ensures p.King? ==> |moves| == King.Span(s.rank) * King.Span(s.file) - 1
    ensures p.Bishop? ==> moves == Bishop.GetMoves(b, s)
    ensures p.Rook? ==> moves == Rook.GetMoves(b, s)
    ensures p.Queen? ==> moves == Queen.GetMoves(b, s, p.color)
    ensures p.Pawn? ==> Pawn.IsPawnMoves(b, s, p.color, p.hasMoved, Pawn.Forward(p.color), moves)
    ensures (p.Queen? || p.Pawn?) ==> forall m :: m in moves ==> !PieceMatchesColor(b, m, p.color)
  {
    match p {
      case Pawn(color, hasMoved) =>
        moves := Pawn.GetMoves(color, hasMoved, b, s);
      case Knight(_) =>
        Knight.Members(b, s);
        moves := Knight.GetMoves(b, s);
      case Bishop(_) =>
        Bishop.Members(b, s);
        moves := Bishop.GetMoves(b, s);
      case Rook(_) =>
        Rook.Members(b, s);
        moves := Rook.GetMoves(b, s);
      case Queen(color) =>
        Queen.Members(b, s, color);
        moves := Queen.GetMoves(b, s, color);
      case King(_) =>
        moves := King.GetMoves(b, s);
    }
  }
}
