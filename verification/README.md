# Chessboard geometry and move generation, in Dafny

This project models the move-generation core of a small chess engine written
in Rust: the bounded coordinates `File` and `Rank`, the `Square` coordinate
pair and its neighbours, the fixed 8×8 `Board` with `build` and
`get_square`, and the candidate-destination rule `get_moves` of each piece
kind (knight, king, bishop, rook, queen, pawn). The model proves the
properties below about those operations.

Modules, one per source file:

- `Wrappers` holds `Option` and `Result`. `Result` supports `:-`, Dafny's form of Rust's `?`.
- `Coordinates` holds `u8` arithmetic (`checked_add`, `checked_sub`, `saturating_sub`) and inclusive ranges.
- `Files` and `Ranks` are `src/file.rs` and `src/rank.rs`.
- `Squares` is `src/square.rs`, plus facts about sequences of squares.
- `Boards` is `src/board.rs`.
- `Pieces` is `src/piece.rs`.
- `Knight`, `King`, `Bishop`, `Rook`, `Queen` and `Pawn` are the files under `src/piece/`.
- `Moves` is the trait's `get_moves`, dispatched by kind.

Modelling choices:

- **Coordinates.** `File` and `Rank` are the integers 0 to 7. `next` and `previous` keep the enum semantics. `build`, `value`, `next_by`, `previous_by` and `iter_files`/`iter_ranks` are called by the piece files but do not appear in the enum files. They are modelled from their uses: a bounded constructor that fails off the board, and jumps that fail rather than wrap.
- **Squares and occupancy.** A square is its coordinates, so two squares are equal when their coordinates are. What stands on a square lives in `Board.occupants`, a map from square to piece; an absent key means an empty square. `is_empty` and `piece_matches_color` are `Boards.IsEmpty` and `Boards.PieceMatchesColor`.
- **Return values.** The Rust functions return references into the board. Here they return the squares themselves. `Boards.Lookup` shows that looking squares up by their coordinates on a valid board gives back those coordinates.
- **The `Piece` trait.** It becomes the `Pieces.Piece` datatype, with one constructor per kind. `get_color` is the `color` field and `get_moves` is `Moves.GetMoves`.
- **Imperative code.** `King::get_moves` and the pawn's `get_white_moves`/`get_black_moves` build a vector by `push`, so they are methods. The king keeps its two loops and `continue`; the inner loop over one rank is the method `King.ScanRank`. Each is proved against a specification predicate.
- **Pure code.** The other rules are iterator chains, so they are functions. Lemmas state their meaning.

Where the documented design and the code disagree, the model follows the code, with one exception for the king:

- The documented design says every kind drops squares held by the mover's own colour. The code drops them only for the queen (`src/piece/queen.rs:24`) and the pawn. The knight, king, bishop and rook return their squares whatever stands there, and `Knight.IgnoresOccupancy`, `King.IgnoresOccupancy`, `Bishop.IgnoresOccupancy` and `Rook.IgnoresOccupancy` state this for each.
- The documented design says the king uses a saturating lower bound. The code subtracts 1 from a `u8`, which underflows on file A and rank R1 (see Findings). Here the model follows the design: `King.GetMoves`, which `Moves.GetMoves` dispatches the king to, clamps the bound at 0. The code as written is `King.GetMovesAsWritten`.
- Bishop, rook and queen do not stop at the first occupied square.

The test `black_pawn_friends_on_captures` (`src/piece/pawn.rs:415-436`) looks for squares (3,2) and (5,2), which a black pawn on (4,6) never reaches. `Pawn.BlackPawnFriendsOnCaptures` states the property for the squares that test means, (3,5) and (5,5).

## Model

| member | source | states |
|---|---|---|
| Coordinates.RangeInclusive | src/piece/bishop.rs:31-32 | `lo..=hi` has hi - lo + 1 elements (none when lo > hi), the i-th being lo + i |
| Coordinates.Reverse | src/piece/bishop.rs:44 | `.rev()` keeps the length and puts element \|xs\|-1-i at position i |
| Files.Build | src/piece/knight.rs:28 | `File::build` succeeds exactly for values below 8 and then holds that value |
| Files.Value | src/board.rs:25 | a file's value is below 8, so it always indexes the board |
| Files.Next | src/file.rs:14-25 | `next` is None exactly at H, otherwise the file one to the right |
| Files.Previous | src/file.rs:27-38 | `previous` is None exactly at A, otherwise the file one to the left |
| Files.NextBy | src/piece/pawn.rs:41 | `next_by(n)` succeeds exactly when f + n < 8, giving f + n, and never wraps |
| Files.PreviousBy | src/piece/pawn.rs:35 | `previous_by(n)` succeeds exactly when n <= f, giving f - n, and never wraps |
| Files.IterFiles | src/piece/bishop.rs:34 | `iter_files` keeps exactly the values that are files and changes nothing when all are; order is fixed by Files.IterFilesSingle and Files.IterFilesAppend |
| Files.IterFilesSingle | src/piece/bishop.rs:34 | on one value, `iter_files` keeps it exactly when it is below 8 |
| Files.IterFilesAppend | src/piece/bishop.rs:34 | `iter_files` filters value by value: on a concatenation it is the concatenation of the results, so kept values keep their order and multiplicity |
| Files.PreviousOfNext | src/file.rs:14-38 | previous(next(f)) == f whenever next(f) exists |
| Files.NextOfPrevious | src/file.rs:14-38 | next(previous(f)) == f whenever previous(f) exists |
| Files.StepByOne | src/file.rs:14-38 | next_by(1) and previous_by(1) agree with next and previous, failing at the same edges |
| Files.PreviousByOfNextBy | src/piece/pawn.rs:35-41 | a jump right by n and back left by n returns to the start |
| Files.BuildOfValue | src/board.rs:25 | build(value(f)) == Ok(f) |
| Ranks.Build | src/piece/knight.rs:28 | `Rank::build` succeeds exactly for values below 8 and then holds that value |
| Ranks.Value | src/board.rs:26 | a rank's value is below 8 |
| Ranks.Next | src/rank.rs:14-25 | `next` is None exactly at R8, otherwise the rank one up |
| Ranks.Previous | src/rank.rs:27-38 | `previous` is None exactly at R1, otherwise the rank one down |
| Ranks.NextBy | src/piece/pawn.rs:17 | `next_by(n)` succeeds exactly when r + n < 8, giving r + n |
| Ranks.PreviousBy | src/piece/pawn.rs:55 | `previous_by(n)` succeeds exactly when n <= r, giving r - n |
| Ranks.IterRanks | src/piece/bishop.rs:34 | `iter_ranks` keeps exactly the values that are ranks and changes nothing when all are; order is fixed by Ranks.IterRanksSingle and Ranks.IterRanksAppend |
| Ranks.IterRanksSingle | src/piece/bishop.rs:34 | on one value, `iter_ranks` keeps it exactly when it is below 8 |
| Ranks.IterRanksAppend | src/piece/bishop.rs:34 | `iter_ranks` filters value by value: on a concatenation it is the concatenation of the results, so kept values keep their order and multiplicity |
| Ranks.PreviousOfNext | src/rank.rs:14-38 | previous(next(r)) == r whenever next(r) exists |
| Ranks.NextOfPrevious | src/rank.rs:14-38 | next(previous(r)) == r whenever previous(r) exists |
| Ranks.StepByOne | src/rank.rs:14-38 | next_by(1) and previous_by(1) agree with next and previous |
| Ranks.PreviousByOfNextBy | src/piece/pawn.rs:17-55 | a jump up by n and back down by n returns to the start |
| Ranks.BuildOfValue | src/board.rs:26 | build(value(r)) == Ok(r) |
| Squares.Build | src/board.rs:12 | `Square::build` succeeds exactly when both coordinates are below 8, with those coordinates |
| Squares.Left | src/square.rs:19-29 | `left` is None exactly on file A; otherwise same rank, file one less |
| Squares.Right | src/square.rs:31-41 | `right` is None exactly on file H; otherwise same rank, file one more |
| Squares.Up | src/square.rs:43-53 | `up` is None exactly on rank R8; otherwise same file, rank one more |
| Squares.Down | src/square.rs:55-65 | `down` is None exactly on rank R1; otherwise same file, rank one less |
| Squares.RightOfLeft | src/square.rs:19-41 | right(left(s)) == s whenever left(s) exists |
| Squares.LeftOfRight | src/square.rs:19-41 | left(right(s)) == s whenever right(s) exists |
| Squares.UpOfDown | src/square.rs:43-65 | up(down(s)) == s whenever down(s) exists |
| Squares.DownOfUp | src/square.rs:43-65 | down(up(s)) == s whenever up(s) exists |
| Squares.Zip | src/piece/bishop.rs:34 | `iter::zip` has the shorter length and pairs files and ranks position by position |
| Squares.Without | src/piece/bishop.rs:34-36 | the source-square filter keeps exactly the other squares, and on a repeat-free list removes exactly one when the source is present |
| Boards.BuildFile | src/board.rs:12-19 | one row of the literal builds exactly when f < 8, giving (f,0) … (f,7) |
| Boards.Build | src/board.rs:10-22 | `Board::build` always succeeds, with a valid 8×8 grid and no pieces |
| Boards.CellsCoverBoard | src/board.rs:11-20 | every square is in its own cell, and distinct cells hold distinct squares |
| Boards.GetSquare | src/board.rs:24-28 | `get_square(f, r)` stays inside the grid and returns the square (f, r) |
| Boards.IsEmpty | src/piece/pawn.rs:21 | `is_empty`: no piece stands on the square; its meaning in the rules is stated by Pawn.CaptureAt and Pawn.GetWhiteMoves |
| Boards.PieceMatchesColor | src/piece/queen.rs:24 | `piece_matches_color`: a piece of that colour stands on the square; its meaning in the rules is stated by Queen.Keep and Pawn.CaptureAt |
| Boards.AddPiece | src/piece/pawn.rs:203 | placing a piece on an empty square puts it there and changes no other square |
| Boards.GetFile | src/piece/rook.rs:18 | `get_file` is the 8 squares of the file in rank order |
| Boards.GetRank | src/piece/rook.rs:19 | `get_rank` is the 8 squares of the rank in file order |
| Boards.Lookup | src/piece/bishop.rs:36-38 | mapping coordinates through `get_square` returns those same squares |
| Boards.FileMembers | src/piece/rook.rs:18 | a file's squares are exactly the squares with that file |
| Boards.RankMembers | src/piece/rook.rs:19 | a rank's squares are exactly the squares with that rank |
| Boards.PositiveDiagonal | src/piece/bishop.rs:22-34 | the positive diagonal by the distance-to-edge ranges and `zip`; its meaning is stated by Boards.PositiveDiagonalAt and Boards.PositiveDiagonalMembers |
| Boards.NegativeDiagonal | src/piece/bishop.rs:40-46 | the negative diagonal, ranks reversed; its meaning is stated by Boards.NegativeDiagonalAt and Boards.NegativeDiagonalMembers |
| Boards.GetDiagonals | src/piece/queen.rs:19 | `get_diagonals`: the positive then the negative diagonal; its meaning is stated by Boards.GetDiagonalsMembers |
| Boards.PositiveDiagonalAt | src/piece/bishop.rs:22-34 | the positive diagonal has L + R + 1 squares, the i-th at (f - L + i, r - L + i) |
| Boards.NegativeDiagonalAt | src/piece/bishop.rs:40-46 | the negative diagonal has L' + R' + 1 squares, the i-th at (f - L' + i, r + L' - i), so the zip pairs equal-length ranges |
| Boards.PositiveDiagonalMembers | src/piece/bishop.rs:22-34 | the positive diagonal is exactly the squares with Δfile == Δrank, without repeats |
| Boards.NegativeDiagonalMembers | src/piece/bishop.rs:40-46 | the negative diagonal is exactly the squares with Δfile == -Δrank, without repeats |
| Boards.GetDiagonalsMembers | src/piece/queen.rs:19 | `get_diagonals` is exactly the squares with \|Δfile\| == \|Δrank\|, and has L + R + L' + R' + 2 entries |
| Knight.Candidates | src/piece/knight.rs:18-24 | the four checked-arithmetic coordinate pairs of one offset pair; resolved by Knight.CandidatesResolve |
| Knight.Resolve | src/piece/knight.rs:25-32 | one candidate through the filter / build / filter / `get_square` chain; its meaning is stated by Knight.ResolveIsJump |
| Knight.ResolveAll | src/piece/knight.rs:25-33 | the chain over the four candidates, in order; its meaning is stated by Knight.CandidatesResolve |
| Knight.FlatMap | src/piece/knight.rs:17-34 | the `flat_map` over the offset table; its meaning is stated by Knight.GetMovesInOrder |
| Knight.GetMoves | src/piece/knight.rs:14-35 | `Knight::get_moves`; its meaning is stated by Knight.Members and Knight.GetMovesInOrder |
| Knight.QuadMembers | src/piece/knight.rs:20-24 | the four sign combinations of one offset pair are exactly the on-board squares at that offset, without repeats |
| Knight.ResolveIsJump | src/piece/knight.rs:25-32 | a candidate survives the filter/build/filter chain exactly when it lands on the board, as that square |
| Knight.CandidatesResolve | src/piece/knight.rs:17-33 | one offset pair's candidates resolve to its on-board jumps, in the source's order |
| Knight.GetMovesInOrder | src/piece/knight.rs:15-34 | `get_moves` is the jumps of (2,1) then (1,2), each kept exactly when on the board |
| Knight.Members | src/piece/knight.rs:15-34 | the result is exactly the on-board squares at (±2,±1) or (±1,±2), without repeats, at most 8 |
| Knight.IgnoresOccupancy | src/piece/knight.rs:14-35 | the result does not depend on the pieces on the board |
| Knight.CentreHasEight | src/piece/knight.rs:47-73 | from (4,4) there are 8 moves |
| Knight.EdgeHasFour | src/piece/knight.rs:75-97 | from (0,4) the moves are (2,3), (2,5), (1,2), (1,6) |
| Knight.CornerHasTwo | src/piece/knight.rs:99-118 | from (0,0) the moves are exactly (2,1) and (1,2) |
| King.Skip | src/piece/king.rs:25-35 | a visited square that is the centre or off the board leaves the loop invariant intact |
| King.Push | src/piece/king.rs:36 | pushing the visited adjacent square keeps the loop invariant |
| King.ScanRank | src/piece/king.rs:24-37 | one pass of the inner loop over a rank appends exactly that rank's adjacent squares, in file order, and no other |
| King.GetMoves | src/piece/king.rs:17-41 | the result is exactly the adjacent squares, never the source, in rank-then-file order, (Span(rank) × Span(file)) - 1 of them (8, 5 or 3), with lower bounds clamped at 0 |
| King.SortedUnique | src/piece/king.rs:23-38 | two lists in strict rank-then-file order with the same squares are the same list |
| King.IgnoresOccupancy | src/piece/king.rs:17-41 | any two results of `get_moves` for the same square, on whatever boards, are equal |
| King.GetMovesAsWritten | src/piece/king.rs:23-24 | as written, the `u8` lower bound panics exactly on file A or rank R1; elsewhere it returns the adjacent squares |
| King.CornerPanicsAsWritten | src/piece/king.rs:23-24 | on a1 the as-written code panics while the corrected one returns (1,0), (0,1), (1,1) |
| Bishop.GetMoves | src/piece/bishop.rs:20-53 | `Bishop::get_moves`; its meaning is stated by Bishop.Members, Bishop.Shape and Bishop.Length |
| Bishop.Members | src/piece/bishop.rs:20-52 | the result is exactly the squares other than the source with \|Δfile\| == \|Δrank\| |
| Bishop.PositiveShape | src/piece/bishop.rs:27-38 | the filtered positive diagonal holds L + R squares, without repeats, none the source |
| Bishop.NegativeShape | src/piece/bishop.rs:40-50 | the filtered negative diagonal holds L' + R' squares, without repeats, none the source |
| Bishop.Shape | src/piece/bishop.rs:20-52 | no repeats; the first L + R results are on the positive diagonal and the rest on the negative one |
| Bishop.Length | src/piece/bishop.rs:22-52 | the result has L + R + L' + R' squares, the step counts to the edge |
| Bishop.IgnoresOccupancy | src/piece/bishop.rs:20-53 | the result does not depend on the pieces on the board |
| Bishop.CentreCount | src/piece/bishop.rs:65-96 | from (4,4) there are 13 moves |
| Bishop.NearEdgeCounts | src/piece/bishop.rs:98-158 | from (2,4) and (4,2) there are 11 moves |
| Bishop.FileEdgeCounts | src/piece/bishop.rs:160-239 | from (0,4) and (7,4) there are 7 moves |
| Bishop.RankEdgeCounts | src/piece/bishop.rs:187-265 | from (4,0) and (4,7) there are 7 moves |
| Rook.GetMoves | src/piece/rook.rs:17-23 | `Rook::get_moves`; its meaning is stated by Rook.Members and Rook.Shape |
| Rook.Members | src/piece/rook.rs:17-23 | the result is exactly the squares other than the source on its file or rank |
| Rook.Shape | src/piece/rook.rs:17-23 | 14 squares without repeats: the 7 others on the file first, then the 7 others on the rank |
| Rook.IgnoresOccupancy | src/piece/rook.rs:17-23 | the result does not depend on the pieces on the board |
| Queen.Keep | src/piece/queen.rs:23-29 | the `filter_map` keeps exactly the squares other than the source that hold no piece of the queen's colour |
| Queen.GetMoves | src/piece/queen.rs:17-30 | `Queen::get_moves`; its meaning is stated by Queen.Members, Queen.InOrder and Queen.BishopPlusRook |
| Queen.KeepAppend | src/piece/queen.rs:19-29 | filtering the chained runs equals chaining the filtered runs |
| Queen.KeepWithoutFriends | src/piece/queen.rs:24 | with no piece of the queen's colour present, the filter only drops the source |
| Queen.ScannedSquares | src/piece/queen.rs:19-22 | diagonals, file and rank together are exactly the squares on the queen's lines |
| Queen.Members | src/piece/queen.rs:17-30 | the result is exactly the squares on the queen's lines that are not the source and hold no piece of its colour |
| Queen.InOrder | src/piece/queen.rs:19-23 | the result lists diagonal squares, then file squares, then rank squares |
| Queen.BishopPlusRook | src/piece/queen.rs:17-30 | with no friendly piece on the board, the queen's moves are the bishop's followed by the rook's |
| Queen.EmptyBoardCounts | src/piece/queen.rs:43-169 | with no friendly pieces, (4,4) gives 27 moves and (0,4) and (0,0) give 21 |
| Queen.FriendlyPieceExcluded | src/piece/queen.rs:172-185 | a piece of the queen's colour on (4,7) keeps (4,7) out of the moves from (4,4) |
| Queen.EnemyPieceIncluded | src/piece/queen.rs:23-29 | an enemy-held square on a line is still a move |
| Pawn.CaptureAt | src/piece/pawn.rs:34-46 | one capture test yields the diagonal square exactly when it exists and holds a piece not of the pawn's colour |
| Pawn.Assemble | src/piece/pawn.rs:17-47 | forward moves, then left capture, then right capture, together are the pawn's moves without repeats, at most 4 |
| Pawn.GetWhiteMoves | src/piece/pawn.rs:14-49 | exactly the white pawn moves: the single step onto an empty square, the double step when unmoved and both squares are empty, and the diagonal captures of black pieces; no repeats, at most 4 |
| Pawn.GetBlackMoves | src/piece/pawn.rs:51-87 | the same rules mirrored, going down the ranks |
| Pawn.GetMoves | src/piece/pawn.rs:90-96 | the colour picks the direction; no move is the source or holds a piece of the pawn's colour |
| Pawn.LastRankNoMoves | src/piece/pawn.rs:17-55 | with no rank ahead the pawn has no move |
| Pawn.BlockedAhead | src/piece/pawn.rs:21-32 | a piece directly ahead, of either colour, removes both forward moves even when the square beyond is empty |
| Pawn.WhiteStartingRankEmptyBoard | src/piece/pawn.rs:109-130 | an unmoved white pawn on (4,1) of an empty board has exactly (4,2) and (4,3) |
| Pawn.WhiteNonStartingRankEmptyBoard | src/piece/pawn.rs:132-152 | a moved white pawn on (4,2) of an empty board has exactly (4,3) |
| Pawn.BlackStartingRankEmptyBoard | src/piece/pawn.rs:154-175 | an unmoved black pawn on (4,6) of an empty board has exactly (4,5) and (4,4) |
| Pawn.BlackNonStartingRankEmptyBoard | src/piece/pawn.rs:177-197 | a moved black pawn on (4,5) of an empty board has exactly (4,4) |
| Pawn.WhitePawnBlockedInFront | src/piece/pawn.rs:199-227 | any piece on (4,2) leaves the white pawn on (4,1) with no move |
| Pawn.WhitePawnFarBlockedInFront | src/piece/pawn.rs:229-269 | any piece on (4,3) removes the double step but keeps (4,2) |
| Pawn.WhitePawnAvailableCaptures | src/piece/pawn.rs:271-293 | black pieces on (3,2) and (5,2) are both captures |
| Pawn.WhitePawnFriendsOnCaptures | src/piece/pawn.rs:295-317 | white pieces on (3,2) and (5,2) are not moves |
| Pawn.BlackPawnBlockedInFront | src/piece/pawn.rs:319-347 | any piece on (4,5) leaves the black pawn on (4,6) with no move |
| Pawn.BlackPawnFarBlockedInFront | src/piece/pawn.rs:349-389 | any piece on (4,4) removes the double step but keeps (4,5) |
| Pawn.BlackPawnAvailableCaptures | src/piece/pawn.rs:391-413 | white pieces on (3,5) and (5,5) are both captures |
| Pawn.BlackPawnFriendsOnCaptures | src/piece/pawn.rs:71-84 | black pieces on (3,5) and (5,5) are not moves |
| Moves.GetMoves | src/piece.rs:13-16 | `get_moves` by kind never returns the source; it matches each kind's rule (for the king: exactly the adjacent squares, in rank-then-file order, without repeats, Span × Span − 1 of them), and for queen and pawn it holds no friendly square |

## Left out

- `main` (`src/main.rs`) only prints a demonstration, so it is not modelled.
- `Debug` derives and the commented-out formatter are not modelled: they only format output.
- `Rc` shared ownership and trait objects become plain values: a piece is a datatype value in the occupancy map.
- `move_piece` and castling state have no code in these files, so they are not modelled.
- `add_piece`, `get_file`, `get_rank`, `get_diagonals`, `is_empty` and `piece_matches_color` have no code in these files. They are specified from their uses: `add_piece` needs an empty square, `get_file`/`get_rank` list the 8 squares in order, and `get_diagonals` follows the bishop's range algorithm.
- `build`, `value`, `next_by`, `previous_by`, `iter_files`, `iter_ranks` and the `MAX_NUMBER_OF_*` constants are not in the enum files. They are modelled from their uses in the piece files.
- Square identity: the Rust functions return references into the board. The model returns coordinate values, so pointer identity is not captured.
- `Square::rank()` and `Square::file()` are the datatype's fields.
- King.GetMoves: clamps the lower loop bounds at 0 instead of panicking. The code as written is King.GetMovesAsWritten (see Findings). In a release build the subtraction would wrap to 255 instead. On rank R1 that empties the outer range `255..=1`. On file A with rank R2 or above, it empties the inner range `255..=1` (`src/piece/king.rs:24`). Either way the result would be empty. That is not modelled.
- Pawn.GetMoves: a method rather than a function, because it calls the two pushing methods. The colour match is otherwise the source's.

## Findings

| source | as written | input that shows it | evidently intended | confidence | as-written member | corrected member |
|---|---|---|---|---|---|---|
| src/piece/king.rs:23-24 | the loop ranges start at `rank_val-1` and `file_val-1`, which are `u8` subtractions | a king on file A or rank R1, e.g. (0,0): `0u8 - 1` overflows and panics in a debug build | start the ranges at 0 on the edge, giving the 3 or 5 adjacent squares | not executed | King.GetMovesAsWritten, King.CornerPanicsAsWritten | King.GetMoves |
