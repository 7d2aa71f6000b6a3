# Chess engine core in Dafny

This project models the rules core of a small chess engine, `Chess/ChessEngine.py`.
That file has two classes.

- **`GameState`** holds an 8x8 board of two-character square codes, the side to
  move and a log of the moves made. Its operations apply a move, take back the
  last move, and list the moves of the side to move. The move list is built by
  scanning the board and calling a per-piece generator for every piece of that
  side: pawn, rook, knight, bishop, queen, and a king generator that adds nothing.
- **`Move`** is a pair of squares plus copies of the two occupants. It has a
  decimal identity used for equality and a file+rank notation such as `e2e4`.

The model is split into five modules:

- `Pieces` (`pieces.dfy`): squares, pieces, the board and the starting position.
- `Moves` (`moves.dfy`): the `Move` value, its identity, its equality, the
  rank and file tables, and notation.
- `Generation` (`generation.dfy`): specification functions for what each
  generator appends. These are sliding rays, knight jumps and pawn moves. The
  module also holds the lemmas that characterise those functions.
- `Enumeration` (`enumeration.dfy`): the specification of the full board scan,
  row by row and column by column. It characterises the scan's members.
- `Engine` (`engine.dfy`): the pure board updates for making and taking back a
  move, and the class `GameState`.
- `Opening` (`opening.dfy`): the starting position. White has 20 moves there,
  and whatever white plays first, black has 20 replies.

`GameState` keeps the board, the side to move and the log as fields, which its
methods reassign. Each generator is a method with the engine's own loops. Its
contract says that it returns the incoming list extended by exactly the
specification function's moves, in the engine's order. The lemmas about those
functions then carry the engine's rules over to the methods.

## Model

| member | source | states |
|---|---|---|
| Pieces.InitialPosition | Chess/ChessEngine.py:11-19 | the starting position `InitialBoard`: black's back rank and pawns on rows 0 and 1, rows 2 to 5 empty, white's pawns and back rank on rows 6 and 7, queens on the d-file and kings on the e-file; each white piece mirrors the black piece in its column |
| Pieces.SetSquare | Chess/ChessEngine.py:29-30 | writing one square of the board gives that square the new occupant and leaves every other square as it was |
| Moves.NewMove | Chess/ChessEngine.py:194-200 | a move built from two on-board squares records those coordinates and copies the start and end occupants from the board |
| Moves.NewMoveSnapshot | Chess/ChessEngine.py:199-200 | a move depends on the board only through its two squares; boards that agree there give the same move |
| Moves.Move.MoveId | Chess/ChessEngine.py:201 | the identity of an on-board move is a number from 0 to 7777 |
| Moves.MoveIdDigits | Chess/ChessEngine.py:201 | the thousands, hundreds, tens and units digits of the identity are the start row, start column, end row and end column |
| Moves.MoveIdInjective | Chess/ChessEngine.py:201 | two on-board moves have the same identity if and only if their four coordinates agree |
| Moves.Move.Equals | Chess/ChessEngine.py:207-210 | comparing with something that is not a move is false; for two on-board moves, equality holds exactly when the squares agree, whatever the pieces |
| Moves.RankTablesInverse | Chess/ChessEngine.py:187-189 | the row-to-rank table is the rank-to-row table with keys and values swapped; each undoes the other |
| Moves.FileTablesInverse | Chess/ChessEngine.py:190-192 | the column-to-file table is the file-to-column table with keys and values swapped; each undoes the other |
| Moves.GetRankFile | Chess/ChessEngine.py:216-217 | a square's name is its file letter ('a' + column) followed by its rank digit ('8' - row), and the forward tables map those characters back to the column and row |
| Moves.Move.GetChessNotation | Chess/ChessEngine.py:212-213 | the notation of an on-board move has 4 characters: start file, start rank, end file, end rank |
| Moves.NotationRoundTrip | Chess/ChessEngine.py:212-217 | reading the notation back through the file and rank tables recovers all four coordinates of the move |
| Moves.NotationExample | Chess/ChessEngine.py:212-213 | the move from row 6, column 4 to row 4, column 4 is written "e2e4" |
| Generation.Ray | Chess/ChessEngine.py:106-119 | the moves of one direction from step i on: each empty square is taken and the walk goes on; the first occupied square is taken when it holds an enemy and ends the walk; the edge or step 8 ends it (characterised by RayMembers) |
| Generation.RayAtMost | Chess/ChessEngine.py:106 | a ray from step i has at most 8 - i moves, so at most seven from step 1 |
| Generation.RayMembers | Chess/ChessEngine.py:106-119 | a move is on a sliding ray if and only if it goes from the piece to a step whose earlier squares are all on the board and empty, the step itself being on the board, within seven steps and empty or an enemy |
| Generation.RayStopsAtFirstPiece | Chess/ChessEngine.py:110-119 | a ray never reaches past the first occupied square along its direction |
| Generation.Slide | Chess/ChessEngine.py:105-119 | the rays of the given directions, one after another (characterised by SlideMembers) |
| Generation.SlideAtMost | Chess/ChessEngine.py:105-106 | a sliding piece has at most seven moves per direction |
| Generation.SlideMembers | Chess/ChessEngine.py:102-119 | a move is among a sliding piece's moves if and only if it lies on the ray of one of its directions |
| Generation.SlideBlocked | Chess/ChessEngine.py:109-119 | when the first step of every direction is off the board or holds an ally, a sliding piece has no moves |
| Generation.QueenIsRookThenBishop | Chess/ChessEngine.py:158 | the queen's moves are the rook's moves followed by the bishop's |
| Generation.Jump | Chess/ChessEngine.py:127-132 | one jump's move: kept when it lands on the board on a square holding no ally |
| Generation.Jumps | Chess/ChessEngine.py:126-132 | the jumps' moves in the order of the offsets (characterised by JumpsMembers) |
| Generation.JumpsAtMost | Chess/ChessEngine.py:126-132 | a knight has at most one move per offset |
| Generation.JumpsMembers | Chess/ChessEngine.py:123-132 | a move is among the jump moves if and only if it lands, by one of the listed offsets, on an on-board square that is empty or holds an enemy |
| Generation.KnightJumpsShape | Chess/ChessEngine.py:124 | each knight offset moves one square along one axis and two along the other |
| Generation.PawnMoves | Chess/ChessEngine.py:67-96 | a pawn produces at most four moves |
| Generation.PawnMovesMembers | Chess/ChessEngine.py:67-96 | a pawn move is the single step onto an empty square, the double step from the home row over two empty squares, or a diagonal capture of an enemy on the board; nothing else |
| Generation.LastRowWhitePawnMoves | Chess/ChessEngine.py:68-81 | the white pawn branch as the engine runs it for a pawn on row 0: row -1 is read as row 7, and the moves keep -1 as their end row |
| Generation.LastRowPawnLeavesBoard | Chess/ChessEngine.py:69-81 | every move the engine generates for a white pawn on row 0 ends on row -1, off the board and without a rank in the notation tables; there is one whenever the square on row 7 below it is empty |
| Generation.PieceMoves | Chess/ChessEngine.py:21-22 | the generator picked by the piece's kind; a pawn has at most 4 moves, a knight 8, a rook or bishop 28, any piece 56 |
| Generation.SlideSound | Chess/ChessEngine.py:102-153 | every sliding move starts at the piece, ends on the board at a different square, and does not end on an ally |
| Generation.KnightSound | Chess/ChessEngine.py:123-132 | every knight move starts at the piece, ends on another square of the board, records both occupants, and does not end on an ally |
| Generation.PawnSound | Chess/ChessEngine.py:67-96 | every pawn move starts at the pawn, ends on the board, and does not end on an ally |
| Generation.PieceMovesSound | Chess/ChessEngine.py:57-60 | every generated move starts at the piece, ends on the board off the start square and not on an ally; a king generates none |
| Enumeration.SquareMoves | Chess/ChessEngine.py:57-60 | one square's contribution: nothing unless it holds a piece of the side to move, nothing for a king, and at most 56 moves |
| Enumeration.AllMoves | Chess/ChessEngine.py:53-61 | every square's contribution, row by row and column by column; at most 64 * 56 moves |
| Enumeration.AllMovesSquares | Chess/ChessEngine.py:53-61 | a move is in the scan's result if and only if it is among the moves of some on-board square |
| Enumeration.AllMovesMembers | Chess/ChessEngine.py:53-61 | a move is in the scan's result if and only if some piece of the side to move has it among its generator's moves |
| Enumeration.AllMovesSound | Chess/ChessEngine.py:53-61 | every listed move starts on a piece of the side to move that is not a king, ends on the board and does not end on an ally |
| Opening.InitialPawnMoves | Chess/ChessEngine.py:67-80 | in the starting position each white pawn's moves are exactly its single step to row 5 followed by its double step to row 4; it has nothing to capture |
| Opening.InitialKnightMoves | Chess/ChessEngine.py:123-132 | in the starting position each white knight has exactly two moves |
| Opening.InitialBackRankBlocked | Chess/ChessEngine.py:102-119 | in the starting position white's rooks, bishops, queen and king have no move |
| Opening.InitialMoveCount | Chess/ChessEngine.py:11-19 | the starting position gives white exactly 20 moves |
| Opening.OpeningMoveRows | Chess/ChessEngine.py:53-61 | every white opening move starts on row 6 or 7 with a white piece and ends on row 4 or 5 |
| Opening.LowerMoveKeepsBlackHalf | Chess/ChessEngine.py:28-30 | a move within rows 4 to 7 that places no black piece leaves black's half of the board as it started |
| Opening.OpeningKeepsBlackHalf | Chess/ChessEngine.py:28-30 | whatever white plays first, black's half of the board is as it started |
| Opening.ReplyPawnMoves | Chess/ChessEngine.py:83-96 | with black's half as it started, each black pawn's moves are exactly its single step then its double step |
| Opening.ReplyKnightMoves | Chess/ChessEngine.py:123-132 | with black's half as it started, each black knight has exactly two moves |
| Opening.ReplyQuietSquare | Chess/ChessEngine.py:53-61 | with black's half as it started, no square other than a black pawn or knight gives black a move |
| Opening.ReplyCount | Chess/ChessEngine.py:53-61 | with black's half as it started, black has exactly 20 moves |
| Opening.InitialReplyCount | Chess/ChessEngine.py:28-61 | whatever white plays first, black then has exactly 20 moves |
| Engine.AfterMove | Chess/ChessEngine.py:28-30 | after a move the end square holds the moved piece, the start square is empty when it differs from the end, and every other square is unchanged |
| Engine.AfterUndo | Chess/ChessEngine.py:39-41 | taking a move back puts the captured occupant on the end square, puts the moved piece on the start square when the two differ, and changes nothing else |
| Engine.UndoRestores | Chess/ChessEngine.py:28-42 | taking back a move restores the board if and only if the move's copies are what the board held at its squares |
| Engine.OpeningRoundTrip | Chess/ChessEngine.py:28-42 | in the starting position, a2-a4 empties a2 and puts the pawn on a4; taking it back gives the starting position |
| Engine.GameState.constructor | Chess/ChessEngine.py:7-24 | a new game has the starting position, white to move and an empty log |
| Engine.GameState.MakeMove | Chess/ChessEngine.py:28-32 | the board becomes the board after the move, the move is appended to the log and the turn passes |
| Engine.GameState.UndoMove | Chess/ChessEngine.py:37-42 | with an empty log nothing changes; otherwise the last move leaves the log, the board is that move taken back and the turn passes |
| Engine.GameState.GetValidMoves | Chess/ChessEngine.py:47-48 | the valid moves are exactly the scan of all possible moves |
| Engine.GameState.GetAllPossibleMoves | Chess/ChessEngine.py:53-61 | the nested loops produce exactly the row-by-row, column-by-column concatenation of every square's moves |
| Engine.GameState.AppendSquareMoves | Chess/ChessEngine.py:57-60 | a square adds its piece's generator moves when the piece belongs to the side to move, and nothing otherwise |
| Engine.GameState.GetPawnMoves | Chess/ChessEngine.py:67-96 | the list grows by exactly the pawn's advances followed by its left and right captures |
| Engine.GameState.WhitePawnMoves | Chess/ChessEngine.py:68-81 | for white, the list grows by exactly the pawn's advances up the board followed by its captures of black pieces |
| Engine.GameState.BlackPawnMoves | Chess/ChessEngine.py:83-96 | for black, the list grows by exactly the pawn's advances down the board followed by its captures of white pieces |
| Engine.GameState.GetRookMoves | Chess/ChessEngine.py:102-119 | the list grows by exactly the rays of the four orthogonal directions, in order |
| Engine.GameState.GetKnightMoves | Chess/ChessEngine.py:123-132 | the list grows by exactly the knight's on-board jumps that do not land on an ally, in offset order |
| Engine.GameState.GetBishopMoves | Chess/ChessEngine.py:136-153 | the list grows by exactly the rays of the four diagonal directions, in order |
| Engine.GameState.GetQueenMoves | Chess/ChessEngine.py:157-174 | the list grows by exactly the rays of all eight directions, which are the rook's moves then the bishop's |
| Engine.GameState.GetKingMoves | Chess/ChessEngine.py:179-180 | the list is returned unchanged |
| Engine.GameState.SlideMoves | Chess/ChessEngine.py:105-119 | the list grows by the rays of the given directions, one direction after another |
| Engine.GameState.RayMoves | Chess/ChessEngine.py:106-119 | the list grows by exactly one direction's ray: empty squares, then at most one enemy, stopping at a piece or the edge within seven steps |
| Engine.MakeThenUndo | Chess/ChessEngine.py:28-42 | making a move whose copies match the board and then taking it back leaves board, turn and log as they were |
| Engine.OpeningScenario | Chess/ChessEngine.py:7-42 | a new game, then a2-a4 and its take-back, ends in the starting position with white to move and an empty log |

## Left out

- The `print` of the move identity in the `Move` constructor (line 202) is output only and is not modelled.
- The dictionary from piece letter to generator (lines 21-22) is modelled as a `match` on the piece kind.
- The board strings are modelled as the datatype `Square`. The square code's first character is its colour, and its second is its kind.
- Engine.GameState.GetPawnMoves: requires a row ahead of the pawn. In the engine, a white pawn on row 0 indexes row -1, which Python reads as row 7. A black pawn on row 7 raises an IndexError. The generator method does not model either case. Generation.LastRowWhitePawnMoves models the white case as written.
- Enumeration.AllMovesSound: the engine breaks this guarantee for a board where a white pawn stands on row 0. The engine has no promotion, so a pawn does get there. Lines 69-81 then generate moves ending on row -1, off the board. Naming such a move (line 217) raises a KeyError, and making it (line 30) puts the pawn on row 7. Generation.LastRowPawnLeavesBoard proves that every such move leaves the board. The guarantee holds only under the stated precondition.
- Generation.PawnSound: the same holds for a white pawn on row 0. For black, a pawn on row 7 makes the engine raise an IndexError at line 84.
- Engine.GameState.GetAllPossibleMoves: requires that no pawn of the side to move stands on its last row, for the same reason.
- Engine.GameState.GetValidMoves: requires the same as GetAllPossibleMoves.
- Moves.NewMove: requires both squares on the board. In Python a negative index wraps, and a too-large one raises an IndexError.
- Engine.GameState.MakeMove: requires the move's squares on the board, for the same reason.
- Moves.GetRankFile: requires an on-board square. The engine raises a KeyError otherwise.
- Moves.Move.GetChessNotation: requires an on-board move, for the same reason.
- Moves.Move.Equals: for moves with off-board coordinates, the identity can coincide for different squares. The contract characterises equality only for on-board moves.
- Move equality against an object that is not a move is modelled by `None` of an `Option<Move>`.
- Python's dynamic typing is not modelled.
- The reversed rank and file tables are written out literally. Moves.RankTablesInverse and Moves.FileTablesInverse prove that each is the swap of its forward table.
- Check detection, castling, en passant, promotion and king moves are not implemented by the engine, so none are modelled. `getValidMoves` returns all possible moves.
- `makeMove` does not check its move against the board. The model keeps that. The round trip (Engine.MakeThenUndo) therefore requires the move's copies to match the board, and Engine.UndoRestores states the exact condition.
- The rook, bishop and queen generators repeat one loop. The model shares it as GameState.SlideMoves and GameState.RayMoves.
- Generators in the engine append to the caller's list in place. The model's generators take the list and return it extended. Aliasing of that list is therefore not captured, and neither is the in-place mutation of the board's row lists.
- The user interface and game loop that call the engine are not part of this model.
