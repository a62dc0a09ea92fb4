/**
 * The pieces (src/piece.rs). The source's `Piece` trait, implemented by one
 * struct per kind, becomes one datatype with a constructor per kind; every
 * kind carries its colour, and the pawn also its has-moved flag. The trait's
 * `get_color` is the `color` field; its `get_moves` is Moves.GetMoves.
 */
module Pieces {

  datatype Color = White | Black

  datatype Piece =
    | Pawn(color: Color, hasMoved: bool)
    | Knight(color: Color)
    | Bishop(color: Color)
    | Rook(color: Color)
    | Queen(color: Color)
    | King(color: Color)
}
