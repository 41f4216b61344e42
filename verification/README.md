# Chess rules engine and FEN reader/writer, modelled in Dafny

This project models the core of a small Python chess program:

- the rules engine in `gamestate.py`:
  - the `GameState` board;
  - pseudo-legal move generation for the six piece kinds;
  - the attack test and the check test;
  - `make_move` and `undo_move`;
  - castling rights and their log;
  - the legality filter `get_valid_moves`, with castling and the checkmate/stalemate flags;
  - the `Move` value and the rank/file coordinate tables;
- the FEN serialiser in `fen_writer.py`;
- the FEN reader in `fen_parser.py`.

Forsyth–Edwards Notation is defined in section 16.1.3 of the PGN Standard.

The Python objects are immutable Dafny values. Their mutation is rendered as pure functions that return new values.

- **Board.** A `Board` is an 8×8 `seq<seq<Cell>>`. A `Cell` is `Empty` (the code `"--"`) or `Piece(color, kind)` (`"wK"`, `"bP"`, …). Row 0 is Black's back rank.
- **Game state.** `GameState` is a record with these fields:
  - the board and the side to move;
  - the move log;
  - both king squares;
  - the `checkmate` and `stalemate` flags;
  - the en-passant square, with `None` for `()`;
  - the current castling rights and the rights log.
- **Move lists.** The generators append to a shared Python list. The model returns the same moves as sequences, concatenated in the order the source appends them.
- **Sane states.** The engine's functions require a few facts of the state, gathered in the predicate `Sane`:
  - each cached king square holds that king;
  - no pawn stands on its promotion rank;
  - the en-passant square is consistent with the position;
  - a castling right is held only while its king stands on its home square;
  - the rights log is one longer than the move log.

  `Play` shows that legal play keeps them, together with the waiting king being out of reach. This holds from the initial position for every move the as-written engine returns, and for every move but a castle the corrected one returns. States loaded from a FEN record by the user interface are not covered.
- **Attack test.** `square_under_attack` is the engine's attack test (`Attacked`). The trial loop and the castling code also take an attack test as a parameter (`AttackTest`). Their properties are proved for any test that reads only the position, and then instantiated with the engine's own.
- **`undo_move` as written and corrected.** `undo_move` writes the restored castling rights to a misspelled attribute (gamestate.py:172), so the rights it means to restore are never restored. `GetValidMovesAsWritten` models the source as written, on sane states. `GetValidMoves` uses the corrected undo. See "Findings".

Modules:

| module | contents |
|---|---|
| `Options` | the `Option` type |
| `Pieces` | colours and kinds |
| `Boards` | the board and its cells |
| `Moves` | `Move` and the coordinate tables |
| `Castling` | `CastleRights` and `update_castle_rights` |
| `GameStates` | the state, `make_move` and `undo_move` |
| `Generator` | move generation and `square_under_attack` |
| `GeneratorFacts` | properties of the generators |
| `ValidMoves` | `get_valid_moves` |
| `ValidMoveFacts` | properties of `get_valid_moves` |
| `Strings` | the parts of Python's `str`/`int` the FEN code uses |
| `FenWriter` | the FEN serialiser |
| `FenParser` | the FEN reader |
| `FenRoundTrip` | the two FEN components composed |
| `Play` | legal play from the initial position |

## Model

| member | source | states |
|---|---|---|
| Moves.NewMove | gamestate.py:495-526 | A move records its start and target squares, the moving piece, and the ep and castle flags. It is a promotion exactly when a pawn lands on its colour's far rank. A normal move captures whatever stood on the target square. An en-passant pawn move captures the opposite-colour pawn. |
| Moves.SameMoveIff | gamestate.py:523-535 | For on-board moves, `__eq__` (equal `moveID`) holds exactly when both moves have the same start row, start column, target row and target column, because `moveID` is injective on 0..7 coordinates. |
| Moves.RowTablesAreInverse | gamestate.py:8-10 | `ranks_to_rows` and `rows_to_ranks` are mutual inverses, and the rows they cover are exactly 0..7. |
| Moves.ColumnTablesAreInverse | gamestate.py:11-13 | `files_to_cols` and `cols_to_files` are mutual inverses, and the columns they cover are exactly 0..7. |
| Moves.Convert | gamestate.py:546-551 | The name of an on-board square is a file letter a–h followed by a rank digit 1–8. Looked up in the inverse tables, these give back the row and the column. |
| Moves.Unconvert | gamestate.py:554-556 | A rank character and a file character give an on-board square, and `convert` of that square gives back the file and rank characters. |
| Moves.UnconvertConvert | gamestate.py:546-556 | `unconvert(convert(r, c)[1], convert(r, c)[0]) == (r, c)` for every on-board square. |
| Moves.ChessNotation | gamestate.py:538-543 | A move's notation has four characters. Read back through `unconvert`, they give the start square and then the target square. |
| Moves.NotationMatchesEquality | gamestate.py:529-543 | Two on-board moves have the same notation exactly when `__eq__` calls them equal. |
| Boards.Put | gamestate.py:70-73 | Writing a cell changes that square and leaves every other square as it was. |
| Boards.InitialBoard | gamestate.py:26-35 | The starting board holds both back ranks with the king on column 4, both rows of pawns, and four empty rows between them. |
| GameStates.InitialState | gamestate.py:20-63 | A new game is sane, has White to move, empty move log, no en-passant square, all four castling rights and a one-entry rights log. |
| Castling.ClearByMover | gamestate.py:435-456 | A king move clears both rights of its colour. A rook leaving its home corner clears the right of that corner. Every other move keeps all four rights. |
| Castling.ClearByCapture | gamestate.py:458-471 | Capturing a rook that stands on its home corner clears the victim's right for that corner, and nothing else. |
| Castling.UpdateCastleRights | gamestate.py:430-471 | Rights only go from true to false. Each right survives exactly when the move neither moves its king or rook nor captures its rook on the home corner. |
| Castling.KingMoveClearsBoth | gamestate.py:436-441 | After any king move, both rights of the king's colour are false. |
| Castling.UpdateMonotone | gamestate.py:430-471 | Updating a smaller set of rights gives a smaller set of rights. |
| Castling.QuietMoveKeepsRights | gamestate.py:430-471 | A move that touches no king, home rook or rook corner leaves the rights unchanged. |
| GameStates.MakeBoard | gamestate.py:70-114 | After a move, the start square is empty and the target square holds the moved piece. A promoting pawn becomes a queen of its colour. En passant empties (start row, target column). A castle moves the rook: kingside from col+1 to col−1, queenside from col−2 to col+1. No other square changes. |
| GameStates.CastleRook | gamestate.py:107-114 | The rook moves to the other side of the king and its old square becomes empty. Every square other than the two rook squares is untouched. |
| GameStates.EpAfter | gamestate.py:99-104 | After a two-row pawn advance, the en-passant square is the square between start and target. After any other move there is none. |
| GameStates.MakeMove | gamestate.py:66-118 | `make_move` changes the board as MakeBoard says and flips the turn. It appends the move to the log and moves the cached square of a moving king. It sets the en-passant square, updates the rights, appends them to the rights log, and leaves the end-of-game flags alone. |
| GameStates.MakeKeepsLogsAligned | gamestate.py:66-118 | If the rights log is one longer than the move log before `make_move`, it still is after, and the move log has grown by one. |
| GameStates.MakeKeepsPawnsOffFarRank | gamestate.py:70-114 | Promotion keeps both promotion ranks free of pawns, which the pawn generator relies on. |
| GameStates.UncastleRook | gamestate.py:173-179 | Undoing a castle puts the rook back on its corner and empties the square it had moved to. Nothing else changes. |
| GameStates.UndoMove | gamestate.py:152-181 | On an empty log, `undo_move` changes nothing. Otherwise it pops one entry from each log, flips the turn and clears both end flags. It leaves the current castling rights as they were, because of the misspelled attribute at line 172. |
| GameStates.UndoMoveFixed | gamestate.py:168-172 | The corrected undo restores the rights from the entry the popped log leaves last. In everything else it agrees with `undo_move`. |
| GameStates.UndoKeepsLogsAligned | gamestate.py:152-181 | Both undos keep the rights log exactly one longer than the move log. |
| GameStates.RestorePlain | gamestate.py:155-156 | Undoing a move that is neither en passant nor a castle restores the board it was made on. This includes promotions. |
| GameStates.RestoreEp | gamestate.py:163-166 | Undoing an en-passant capture restores the board, including the captured pawn beside the target square. |
| GameStates.RestoreCastle | gamestate.py:173-179 | Undoing a castle restores the board, with king and rook back home. |
| GameStates.UndoAfterMake | gamestate.py:66-181 | `undo_move` right after `make_move(m)` restores the board, the turn, both king squares and both logs. The en-passant square is the target of an en-passant move and otherwise none. The rights stay as `make_move` left them. |
| GameStates.UndoFixedAfterMake | gamestate.py:66-181 | With the corrected undo, make followed by undo also restores the castling rights. |
| Generator.Ray | gamestate.py:244-261 | A ray yields no move exactly when its first square is off the board, holds a friendly piece, or lies past the step limit. Otherwise its first move targets that first square. |
| Generator.RayEmits | gamestate.py:244-261 | Every move of a ray starts on the piece's square and targets an on-board square without a friendly piece. It records the occupant of that square as captured and is neither en passant nor a castle. |
| Generator.RayStepsOverEmptySquares | gamestate.py:251-253 | Each move of a ray is one step beyond the previous one, and a move followed by another targets an empty square. |
| Generator.RayStopsAtFirstPiece | gamestate.py:254-261 | A ray ends at the first occupied square: it includes that square if it holds an enemy piece, and stops before it if it holds a friendly piece or lies off the board. |
| Generator.BishopMoves | gamestate.py:280-305 | Every bishop move is a generated move of the bishop's square, on the board, to a square without a friendly piece. |
| Generator.RookMoves | gamestate.py:233-261 | Every rook move is a generated move of the rook's square, on the board, to a square without a friendly piece. |
| Generator.QueenMoves | gamestate.py:308-312 | Queen moves are the bishop moves followed by the rook moves, and satisfy the same conditions. |
| Generator.LeapCols | gamestate.py:268-277 | One row of a knight's or king's scan yields exactly the open squares of that row whose offset is a legal jump, without repeats. |
| Generator.LeapRows | gamestate.py:268-277 | The full scan yields exactly the open squares at a legal jump offset, without repeats. |
| Generator.KnightMoves | gamestate.py:264-277 | Every knight move has offset (i, j) with i²+j² = 5. Every on-board square at such an offset without a friendly piece is reached. |
| Generator.KingMoves | gamestate.py:315-323 | Every king move goes at most one row and one column. Every neighbouring on-board square without a friendly piece is reached. |
| Generator.PawnCapture | gamestate.py:382-390 | A pawn yields a move onto a diagonal square exactly when that square holds an enemy piece or is the en-passant square, and at most one. The move is en passant exactly when no enemy piece stands there. An ordinary capture takes the enemy piece, and an en-passant move takes the opposing pawn. |
| Generator.FrontSquares | gamestate.py:377-390 | `front_squares` only looks at the even positions of the three squares in front, which are the two diagonals. Every move it yields targets one of them. A move is en passant exactly when no enemy piece stands on its target, and its en-passant moves are well formed. |
| Generator.PawnMoves | gamestate.py:200-230 | Every pawn move is a generated move of the pawn's square and is one of four kinds. It can be a one-row push onto an empty square, or a two-row push from the home row across two empty squares; pushes capture nothing. It can be a diagonal capture of an enemy piece. Or it can be an en-passant move onto a diagonal square where no enemy piece stands. |
| Generator.PawnAdvance | gamestate.py:205-228 | The straight advances are exactly these: the one-row push when that square is empty, and the two-row push when the pawn is on its home row and both squares are empty. Every such square is reached, no other, and none twice. They capture nothing and are not en passant. |
| GeneratorFacts.PawnMovesReach | gamestate.py:200-230 | A pawn's moves reach a square exactly when it is a push square as `PawnAdvance` describes, or a diagonal square one row forward that holds an enemy piece or is the en-passant square. |
| Generator.PieceMoves | gamestate.py:191-196 | Dispatching on the piece kind gives moves that all start on that square and are generated moves of the side to move. |
| Generator.ScanCols | gamestate.py:189-196 | Scanning a row from a column on gives generated moves starting in that row at or after that column. |
| Generator.ScanRows | gamestate.py:188-196 | Scanning the board from a row on gives generated moves starting at or below that row. |
| Generator.PossibleMoves | gamestate.py:184-197 | Every move of `possible_moves` is generated for the side to move: it starts on a square of the side to move and targets an on-board square without a friendly piece. |
| GeneratorFacts.PossibleMovesMembers | gamestate.py:184-197 | A move is in `possible_moves` exactly when it starts on a square of the side to move and the generator for that square yields it. |
| GeneratorFacts.RayDistinct | gamestate.py:244-261 | No ray yields the same square twice. |
| GeneratorFacts.BishopDistinct | gamestate.py:280-305 | The bishop's four diagonals yield no square twice, and no bishop move stays in the bishop's row or column. |
| GeneratorFacts.RookDistinct | gamestate.py:233-261 | The rook's four files yield no square twice, and every rook move stays in the rook's row or column. |
| GeneratorFacts.QueenDistinct | gamestate.py:308-312 | The queen's moves repeat no square. |
| GeneratorFacts.PawnDistinct | gamestate.py:200-230 | A pawn's moves repeat no square. |
| GeneratorFacts.PieceMovesDistinct | gamestate.py:191-196 | The moves of one piece repeat no (start, target) pair. |
| GeneratorFacts.PossibleMovesDistinct | gamestate.py:184-197 | `possible_moves` repeats no (start, target) pair, so all its `moveID`s differ. This is what makes `moves.remove` in `get_valid_moves` remove the move under trial and no other. |
| GeneratorFacts.DistinctGivesIDs | gamestate.py:525-526 | On-board moves with distinct (start, target) pairs have distinct `moveID`s. |
| GeneratorFacts.KingStepGenerated | gamestate.py:315-323 | A king next to an empty square always has the move there among `possible_moves`. |
| GeneratorFacts.PossibleMovesNonEp | gamestate.py:184-390 | Dropping the en-passant moves from `possible_moves` gives the moves generated with no en-passant square. |
| GeneratorFacts.AttackIgnoresEp | gamestate.py:355-374 | For any square other than the en-passant square, `square_under_attack` does not depend on the en-passant square. |
| GeneratorFacts.ReachesWithoutEp | gamestate.py:371-374 | A square that is not the en-passant square is reached by a move list exactly when it is reached by that list without its en-passant moves. |
| ValidMoves.AttackedEpBlind | gamestate.py:355-374 | The engine's attack test ignores the en-passant square when asked about another square. |
| ValidMoves.KingStands | gamestate.py:346-352 | In a state whose king cache is right, the cached square of the side to move is on the board and holds its king. |
| ValidMoves.PassesAgrees | gamestate.py:130-136 | Whether a move survives the check test depends only on the board, the turn and the king squares. |
| ValidMoves.Keep | gamestate.py:130-136 | The moves kept are exactly those that leave the mover's king unattacked. |
| ValidMoves.RemoveFirst | gamestate.py:134 | `list.remove` drops one element: the result is one shorter, and each position holds the element from the same or the next position. |
| ValidMoves.RemoveFirstSplits | gamestate.py:134 | `list.remove` cuts out the first element `__eq__` to its argument. |
| ValidMoves.RemoveFirstAt | gamestate.py:134 | On a list with distinct `moveID`s, removing the element at index j cuts out exactly index j. |
| ValidMoves.TrialBack | gamestate.py:131-136 | Making a move, flipping the turn twice and undoing it gives a state with the same position and logs. The rights are those `make_move` left, or the logged ones under the corrected undo. |
| ValidMoves.TrialStep | gamestate.py:130-136 | One iteration of the trial loop keeps the list ready for the next iteration. |
| ValidMoves.Trial | gamestate.py:130-136 | The trial loop restores the position and both logs. As written it can only lose castling rights; with the corrected undo it keeps them. After at least one iteration both end flags are clear. |
| ValidMoves.TrialFilters | gamestate.py:130-136 | Running the loop backwards from index i over a list with distinct `moveID`s leaves the moves that pass among the first i, in order, followed by the untouched rest. |
| ValidMoves.DriftIsDrifted | gamestate.py:115-118 | Applying the rights updates of a move list one by one gives the closed form DriftedRights: a right survives only if no move in the list loses it. |
| ValidMoves.TrialDrift | gamestate.py:130-136 | As written, the loop leaves the rights updated by every move tried, in loop order. |
| ValidMoves.TrialEp | gamestate.py:99-169 | After the loop, the en-passant square is the target of the last move tried, which is `moves[0]` since the loop runs from the end, if that move was en passant, and otherwise none. `make_move` resets it on every move, and only the undo of an en-passant move sets it back. |
| ValidMoves.KgsCastling | gamestate.py:410-418 | A kingside castle is yielded exactly when the two squares toward the rook are empty and unattacked. It is the move built on the state's board from the king's square two columns right, flagged as a castle. |
| ValidMoves.QsCastling | gamestate.py:421-427 | A queenside castle is yielded exactly when the three squares toward the rook are empty and the two the king crosses are unattacked. It is the move built on the state's board from the king's square two columns left, flagged as a castle. |
| ValidMoves.CastleMoves | gamestate.py:393-407 | `castling` yields only castle moves, each built on the state's board from the king's square along its row. It yields the kingside castle exactly when the side holds that right, the king is not attacked and the kingside path is clear; the same holds for queenside. |
| ValidMoves.GeneratedPlayable | gamestate.py:130-136 | Every generated move of a sane state can be made and taken back by the trial loop. |
| ValidMoves.TrialAll | gamestate.py:129-136 | The loop over all of `possible_moves` restores position and logs. It only loses rights as written, and keeps them with the corrected undo. |
| ValidMoves.MarkEnd | gamestate.py:137-141 | The end-of-game check changes nothing but the two flags. |
| ValidMoves.GetValidMovesWith | gamestate.py:121-149 | `get_valid_moves` restores everything except the two end-of-game flags: board, turn, king squares, logs, en-passant square and rights. |
| ValidMoves.GetValidMovesAsWritten | gamestate.py:121-149 | The same restoration for `get_valid_moves` as written. |
| ValidMoves.GetValidMoves | gamestate.py:121-149 | The same restoration with the corrected undo. |
| ValidMoveFacts.TrialAllFilters | gamestate.py:129-136 | The trial loop over `possible_moves` keeps exactly the moves that pass the check test, in generation order. |
| ValidMoveFacts.TrialAllEp | gamestate.py:129-169 | After the loop the en-passant square is the original one or none. |
| ValidMoveFacts.TrialAllFlags | gamestate.py:129-181 | With no pseudo-legal move the loop changes nothing. Otherwise it leaves both end flags clear. |
| ValidMoveFacts.TrialAllDrift | gamestate.py:129-172 | As written, the loop leaves the rights that survive every pseudo-legal move's update. |
| ValidMoveFacts.ValidMovesPass | gamestate.py:121-149 | Under any attack test, a non-castle move is returned exactly when it is pseudo-legal and leaves the mover's king unattacked. |
| ValidMoveFacts.TrialAllStuck | gamestate.py:129-141 | The loop keeps nothing exactly when no pseudo-legal move passes. |
| ValidMoveFacts.TrialAllChecked | gamestate.py:137-138 | The check test after the loop gives the same answer as before it, so the end-of-game check sees the original position. |
| ValidMoveFacts.ValidFlagsWith | gamestate.py:137-141 | `checkmate` is set exactly when no move passes and the king is attacked; `stalemate` exactly when no move passes and it is not. The exception is a state with no pseudo-legal move at all, which keeps its flags. |
| ValidMoveFacts.KingStepSpoilsRights | gamestate.py:129-172 | As written, if the square beside the king on either side is empty, the king's step there is tried. That trial clears both of the side's castling rights before `castling` reads them. |
| ValidMoveFacts.ValidMovesJoin | gamestate.py:143-149 | The result is the kept moves followed by `castling` on the king's square, read in the state the loop and end-of-game check leave. |
| ValidMoveFacts.NeverCastlesWith | gamestate.py:121-172 | As written, `get_valid_moves` never returns a castle, under any attack test. |
| ValidMoveFacts.CastlesThroughJoin | gamestate.py:143-146 | A castle from the king's square is returned exactly when `castling` yields it in the post-loop state. |
| ValidMoveFacts.CastlesAgree | gamestate.py:393-427 | In a state with the original position and rights, and the original or no en-passant square, `castling` decides each side exactly as it would in the original state. |
| ValidMoveFacts.KingsideCastlesWith | gamestate.py:393-418 | With the corrected undo, the kingside castle is returned exactly when the side holds the right, the king is not attacked, and the two squares toward the rook are empty and unattacked. |
| ValidMoveFacts.QueensideCastlesWith | gamestate.py:393-427 | With the corrected undo, the queenside castle is returned exactly when the side holds the right, the king is not attacked, the three squares toward the rook are empty, and the two the king crosses are unattacked. |
| ValidMoveFacts.ValidMovesAreLegal | gamestate.py:121-149 | With the engine's attack test, a non-castle move is returned exactly when it is pseudo-legal and legal. |
| ValidMoveFacts.ValidMovesFlags | gamestate.py:137-141 | With the engine's attack test, checkmate is set exactly when no pseudo-legal move is legal and the side is in check; stalemate exactly when none is legal and it is not. |
| ValidMoveFacts.StuckUnderAttacked | gamestate.py:137-141 | "No legal move" under the engine's attack test is the same as "no move passes". |
| ValidMoveFacts.AsWrittenNeverCastles | gamestate.py:121-172 | `get_valid_moves` as written never returns a castling move, in any sane state. |
| ValidMoveFacts.FixedKingsideCastles | gamestate.py:393-418 | With the corrected undo and the engine's attack test, kingside castling is returned exactly when the right is held, the king is not in check, and the two squares toward the rook are empty and unattacked. |
| ValidMoveFacts.FixedQueensideCastles | gamestate.py:393-427 | With the corrected undo and the engine's attack test, queenside castling is returned exactly when the right is held, the king is not in check, the three squares toward the rook are empty, and the two the king crosses are unattacked. |
| Strings.NatToString | fen_writer.py:27 | `str(n)` for a count is a non-empty decimal numeral with no leading zero, whose value is n. A count below 10 is one digit. |
| Strings.IntToStringReadsBack | fen_writer.py:103-118 | `int(str(i)) == i` for every integer. |
| Strings.ParseInt | fen_parser.py:95-105 | `int` accepts an optional sign followed by decimal digits and gives their value. Anything else, the empty string included, is an error. |
| Strings.Find | fen_parser.py:71-73 | `str.find` returns the first index from `start` on that holds the character, or -1 exactly when there is none. |
| Strings.Slice | fen_parser.py:88-99 | A slice with in-range bounds is the substring between them. |
| Strings.SplitOn | fen_parser.py:23 | `split` gives one more part than there are separators, and no part holds the separator. |
| Strings.JoinSplit | fen_parser.py:23 | Joining the parts of a split with the separator gives back the string. |
| Strings.SplitJoin | fen_parser.py:23 | Splitting a join of separator-free parts gives back the parts. |
| Strings.RemoveFirst | fen_writer.py:15 | `replace(ch, "", 1)` cuts out the first occurrence of `ch` and keeps the characters before and after it in order, so the result is one shorter and holds one `ch` fewer. Without an occurrence it changes nothing. |
| Strings.Lower | fen_writer.py:41 | `lower` maps an upper-case letter to the lower-case letter whose `upper` is it, and leaves other characters alone. |
| FenWriter.PieceLetter | fen_writer.py:37-47 | A white piece is written as its upper-case kind letter and a black piece as the lower-case one. |
| FenWriter.ScanCellsWritesRank | fen_writer.py:31-49 | The cell loop, with the pending run flushed, appends exactly the rank's run-length text. |
| FenWriter.ScanRowsOpensRows | fen_writer.py:23-54 | The placement loop writes a "/" before each rank's text. |
| FenWriter.RankTextLetters | fen_writer.py:31-49 | A rank's text holds no "/" and no space. |
| FenWriter.RankTextDigits | fen_writer.py:23-52 | Within a rank, no two run-length digits are adjacent and each digit is between 1 and 8. |
| FenWriter.OpenedIsJoin | fen_writer.py:23-54 | The ranks with a leading "/" before each are "/" followed by the rank fields joined with "/". |
| FenWriter.PlacementField | fen_writer.py:10-54 | The placement field, with its leading "/" removed, is the eight rank fields joined with "/", and it holds no space. |
| FenWriter.PlacementOpened | fen_writer.py:18-54 | `piece_placement` gives "/" followed by the rank fields joined with "/". |
| FenWriter.ActiveColor | fen_writer.py:56-65 | The active-colour field is " w " when it is White's turn and " b " otherwise. |
| FenWriter.CastlingFromLetters | fen_writer.py:73-79 | The loop over "KQkq" from index i writes exactly the letters at or after i whose flag is true, and nothing else. |
| FenWriter.CastlingAvailability | fen_writer.py:67-84 | The field holds "K", "Q", "k", "q" exactly for the true flags (wks, wqs, bks, bqs). It is "-" exactly when all four are false, and otherwise it is those letters in the order K, Q, k, q. It never holds a space. |
| FenWriter.CastlingLetters | fen_writer.py:73-79 | The loop writes "K" if wks, then "Q" if wqs, "k" if bks and "q" if bqs, and nothing else. So each letter is present exactly when its flag is set, and the result is empty exactly when every flag is false. It has at most four characters, none a space, and is never "-". |
| FenWriter.EpText | fen_writer.py:86-101 | The en-passant field is "-" unless a pawn moved two rows. Then it is the letter followed by start−3 when Black is to move, or start+5 when White is to move. |
| FenWriter.EpTargetSquare | fen_writer.py:99 | The en-passant field is written between two spaces. |
| FenParser.Expand | fen_parser.py:62-63 | A digit d expands to d blanks. |
| FenParser.ExpandOrNoop | fen_parser.py:52-59 | A piece letter stays itself and a digit expands to blanks. |
| FenParser.ParseRank | fen_parser.py:41-45 | The expanded rank holds only piece letters and blanks. |
| FenParser.ParseRankAppend | fen_parser.py:41-45 | Parsing two pieces of a rank one after the other gives the parse of the whole: the token scan is compositional. |
| FenParser.CellOf | fen_parser.py:32-37 | A blank becomes `"--"`, a lower-case letter x becomes `"b"` + upper(x), and an upper-case letter X becomes `"w"` + X. |
| FenParser.Parse | fen_parser.py:17-38 | `parse` succeeds exactly when there are at least eight ranks, each of the first eight with at least eight cells. The square (row, col) is then the code of the col-th cell of the row-th expanded rank. |
| FenParser.FindNthOccurrence | fen_parser.py:66-75 | For n ≥ 1, `find_nth` returns an index holding the character with n−1 occurrences before it. It returns −1 exactly when there are fewer than n occurrences. |
| FenParser.FindNthAt | fen_parser.py:66-75 | The index holding the n-th occurrence is what `find_nth` returns. |
| FenRoundTrip.PieceLetterReadsBack | fen_writer.py:37-47 | The letter written for a piece reads back as that piece. |
| FenRoundTrip.ShownReadsBack | fen_writer.py:34-47 | Every cell, written as a letter or a blank, reads back as itself. |
| FenRoundTrip.RunReadsBack | fen_writer.py:27 | A run-length digit expands to that many blanks. |
| FenRoundTrip.RankTextReadsBack | fen_writer.py:31-52 | Parsing the text written for a rank, with k pending blanks, gives k blanks followed by the rank's cells. |
| FenRoundTrip.RankFieldShape | fen_writer.py:23-52 | A rank of eight cells is written as a field that parses back to those eight cells. It has well-formed digits and holds no "/" or space. |
| FenRoundTrip.PlacementShape | fen_writer.py:10-54 | The placement field has exactly 7 "/" separators, and splitting it at them gives the eight rank fields. |
| FenRoundTrip.PlacementRoundTrip | fen_parser.py:17-38 | Parsing the placement field written for a board, followed by nothing or by a space and more fields, gives back the board. |
| FenRoundTrip.TurnAt | fen_parser.py:82-85 | `turn` reads the one-character field after the first space. |
| FenRoundTrip.CastleAt | fen_parser.py:88-92 | `castle` reads the space-free field between the second and third spaces. |
| FenRoundTrip.HalfmoveAt | fen_parser.py:95-99 | `halfmove_clock` reads the field between the fourth and fifth spaces. |
| FenRoundTrip.FullmoveAt | fen_parser.py:102-105 | `fullmove_number` reads everything after the fifth space. |
| FenRoundTrip.FenFields | fen_writer.py:10-16 | `fen_generator` gives six fields separated by single spaces, in FEN order: placement, colour, castling, en passant, halfmove clock, fullmove number. |
| FenRoundTrip.FieldsRoundTrip | fen_parser.py:82-105 | Reading a generated FEN record gives back the turn letter, the castling field, the halfmove clock and the fullmove number that were written. |
| FenRoundTrip.FenBoardRoundTrip | fen_parser.py:17-38 | Parsing any generated FEN record gives back the board that was written. |
| FenRoundTrip.EpFieldNamesEpSquare | fen_writer.py:86-101 | After a pawn's two-row advance from its home row, the en-passant field names the same square as the engine's `ep_possible`, in algebraic notation. |
| Play.NoKingTaken | gamestate.py:184-198 | In a state of legal play, no generated move of the side to move captures a king. |
| Play.KingFollowed | gamestate.py:82-88 | After a move that takes no king of a colour, that king stands exactly on its cached square: `make_move` moves the cache with the king and no other square holds it. |
| Play.MadeEpConsistent | gamestate.py:99-104 | After a generated move of a sane state, any en-passant square is empty, lies on the row a pawn's two-row advance passes over, and has that pawn beyond it, now on the side that has just moved. |
| Play.MadeRightsNeedHomeKing | gamestate.py:430-475 | If each castling right was held only while its king stood on its home square, that stays so after any move. |
| Play.PassedNotExposed | gamestate.py:130-136 | A move the trial loop keeps leaves the mover's king out of reach of the opponent's generated moves. |
| Play.LegalMoveKeepsInPlay | gamestate.py:66-118 | Making a generated move that the trial loop keeps, on a sane state whose waiting king is out of reach, gives a sane state whose waiting king is out of reach. |
| Play.InitialMovesStayBack | gamestate.py:20-63 | In the starting position every generated move of White lands on row 4 or nearer White's side. |
| Play.InitialInPlay | gamestate.py:20-63 | The starting position is sane and Black's king is out of White's reach. |
| Play.AsWrittenPlayKeepsInPlay | gamestate.py:121-150 | Every move `get_valid_moves` as written returns, played on the state it leaves, keeps a state of legal play one. |
| Play.FixedPlayKeepsInPlay | gamestate.py:121-150 | Every move but a castle that the corrected `get_valid_moves` returns keeps a state of legal play one, and keeps the rights logged. |
| Play.ValidCastleBuilt | gamestate.py:393-427 | A castle the corrected `get_valid_moves` returns is the king's move two columns along its row, built on the state's board. |
| Play.CastleIntoPawnAttack | gamestate.py:355-418 | With White Ke1, Rh1 and the kingside right against Black Ka8, Ph2, the state is one of legal play and the corrected engine offers e1-g1. After it, Black's pawn can take the king on g1. |

## Left out

- `main.py`, `chessboard.py`, `engine.py` and `pgnparser.py` are not part of this model. They are the pygame user interface, the rendering, a Stockfish subprocess and a PGN reader built on an outside library.
- The halfmove and fullmove counters are parameters of the FEN writer. The code that computes them lives in the user interface.
- Python's shared mutable `moves` list and the `move_functions` dispatch dictionary are modelled as returned sequences concatenated in append order, and as a `match` on the piece kind.
- The attack test is a parameter of the trial loop and of the castling code. The properties that hold for any attack test reading only the position are proved that way and then instantiated with the engine's `square_under_attack`.
- Python's negative list indices wrap around. On sane states the source never relies on it, and the model keeps indices on the board by preconditions:
  - `Sane` keeps pawns off their promotion ranks, so `pawn_moves` never looks past the board;
  - `Sane` keeps a right only while its king is home, so `castling` looks only two columns right and three left of column 4.
- `CastleMoves`: requires the squares it indexes to be on the board. With the king off its home column and a right still set, Python would wrap or raise, and no sane state gets there.
- `ValidMoves.TrialAll`: requires `Sane`. The trial loop's make and undo move the cached king squares, and `in_check` reads them, so the model needs them right. A state loaded from a FEN record by the user interface (main.py:170-188) can hold stale king squares, a stale en-passant square and an extra rights-log entry. Such states are not modelled.
- `ValidMoves.GetValidMovesWith`: requires `Sane`, for the same reason as `TrialAll`.
- `ValidMoves.GetValidMovesAsWritten`: requires `Sane`. `Play.InitialInPlay` and `Play.AsWrittenPlayKeepsInPlay` show that it holds throughout a game played with it from the initial position.
- `ValidMoves.GetValidMoves`: requires `Sane` and `RightsLogged`. `Play.FixedPlayKeepsInPlay` shows that both hold after every move it returns except a castle.
- `ValidMoveFacts`: its lemmas about these four functions carry the same requirements.
- `Play.FixedPlayKeepsInPlay`: excludes castles, and no lemma states that legal play stays legal across a castle.
  - `castling` tests the king's path with `square_under_attack`, which runs `possible_moves`. That generates a pawn's diagonal move only onto an occupied square or the en-passant square.
  - So a pawn guarding the empty square the king castles to goes unseen. `Play.CastleIntoPawnAttack` gives a position where the corrected engine offers a castle after which the king can be taken.
  - The as-written engine never castles, so this does not arise with it.
- The castling generators never check that a rook stands on its corner; the model follows them and adds no such check.
- The engine runs on mutable Python objects in one thread. Object identity, aliasing and exceptions raised from the user interface are not modelled.
- `FenParser.Parse`: returns only the 8×8 grid. The source keeps any extra ranks and cells beyond the eighth, unconverted, in the list it returns. A record with fewer than eight ranks or cells is the source's `IndexError` and is `None` here.
- `Strings.ParseInt`: models `int` on ASCII signed decimals. It does not model Python's acceptance of surrounding whitespace, of underscores between digits, or of non-ASCII digits.
- `FenParser.ParseRank`: treats only the ASCII digits as `\d`. Python's `\d` also matches other Unicode decimal digits.
- `FenParser.Turn`, `FenParser.Castle`, `FenParser.HalfmoveClock` and `FenParser.FullmoveNumber` carry no contract of their own. Their meaning is stated by `FenRoundTrip.TurnAt`, `CastleAt`, `HalfmoveAt`, `FullmoveAt` and `FieldsRoundTrip`, which read them on well-formed records.
- `FenRoundTrip.FieldsRoundTrip`: requires the file letter of the en-passant field to hold no space. The source passes one file letter, and a letter with a space in it would shift every later field.
- `FenRoundTrip.FieldsRoundTrip`: states the turn as the character `w` or `b`. The source returns it as a one-character string.

## Findings

| source | as written | input that shows it | evidently intended | confidence | as-written member | corrected member |
|---|---|---|---|---|---|---|
| gamestate.py:172 | `undo_move` assigns the restored rights to `current_castling_right`, a new misspelled attribute, so `current_castling_rights` keeps whatever the undone move left. In `get_valid_moves` the trial loop (lines 130-136) makes and undoes every pseudo-legal move. The king's own trial steps clear both of its side's rights, and `castling` reads those spoiled rights at lines 143-146, before line 148 restores them. | White king on e1 with the kingside right, f1 and g1 empty and not attacked, White to move. The trial of the king's step e1-f1 clears `wks` and `wqs`, so the kingside castle is never added. By the same argument no castle is ever returned. | `undo_move` restores `current_castling_rights` from the last entry of the rights log, and `get_valid_moves` returns a castle exactly when the right is held, the king is not in check and the path is clear and unattacked. | high (not executed) | ValidMoveFacts.AsWrittenNeverCastles | ValidMoveFacts.FixedKingsideCastles |
