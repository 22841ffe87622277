# Chess rules engine of a console chess game, in Dafny

This project models the rules engine of a small console chess game and
proves properties of the model. The game is written in Python. The model
covers these parts of the game:

- **Square codec** (`utils/static_chess_methods.py`): "E4"-style names to and
  from zero-based (row, col) indices. Row 0 is rank 1 and column 0 is file A.
  The board's `position_to_indices` and the check detector's
  `indices_to_position` are copies of it, and the model proves that each copy
  agrees with the codec.
- **Pieces** (`utils/piece.py`, `utils/pieces.py`):
  - the closed piece value (kind and color) and its display letter. The
    board's data-only `utils/piece.py` objects and the `utils/pieces.py`
    objects that generate moves are both this one value here (see
    "## Left out");
  - the `pieces.py` objects with a movable position;
  - the geometric ("pseudo-legal") move generators of the six kinds. Each
    generator keeps the source's loops and is proved equal to a
    specification function that lists the squares in the source's order.
- **Board** (`utils/board.py`): a class whose 8x8 grid field the methods
  update in place. It covers the opening layout, square lookup, and
  `move_piece` with forced promotion to a queen.
- **Check detection** (`utils/check_detector.py`): the row-major king search,
  and the "does any enemy piece generate the king's square" scan.
- **Move validator** (`utils/move_validator.py`): the fixed order of
  rejection messages, the per-kind shape rules and the path walk.
- **Move parser** (`Game.parse_move` in `utils/game.py`): separators tried in
  priority order, and both pieces stripped and upper-cased.

Modules follow the source files:

| module | models |
|---|---|
| `Wrappers` | `Option` |
| `Text` | the Python string built-ins the source relies on: `strip`, ASCII `upper`, `in`, `split(sep)`, `split()` |
| `SquareCodec` | the codec |
| `PieceModel` | piece kinds, colors, the grid type and display letters |
| `MoveGen` | the generators |
| `MoveGenFacts` | what the generators reach, stated without their loops |
| `PlacedPieces` | the `pieces.py` objects |
| `ChessBoard` | the board |
| `CheckDetection` | check detection |
| `MoveValidation` | the validator |
| `MoveParsing` | the parser |

The move generators, the check detector and the validator only read the
board, so they take the grid as a value of type `seq<seq<Option<Piece>>>`.
Each one is a function of that value and cannot change it.

In three places the code differs from what its own tests and its other
components expect. The model follows the code:

- **The generator's pawn double step** (`utils/pieces.py:127-131`) consults
  only the square two ahead, not the square in between. The validator
  requires both to be empty (`utils/move_validator.py:116` and
  `utils/move_validator.py:124-130`).
  - `MoveValidation.PawnValidatorIsStricter` states exactly where the two
    disagree.
  - `MoveValidation.PawnJumpGenerated` and `MoveValidation.PawnJumpRejected`
    give a board on which the generator offers E2-E4 past a blocking piece
    and the validator rejects it.
- **`move_piece`** changes the board in place and returns only the captured
  piece (`utils/board.py:157-179`). The integration tests unpack a new grid
  and a captured piece from it (`test/integration/integration_tests.py:120`).
- **The validator** does not test whether a move leaves the mover's own king
  in check. The integration tests expect the message "Can't put your king in
  jeopardy" for such moves (`test/integration/integration_tests.py:233-235`
  and `test/integration/integration_tests.py:533-583`).

## Model

| member | source | states |
|---|---|---|
| SquareCodec.UciToIndices | utils/static_chess_methods.py:4-34 | an accepted name always gives an on-board (row, col) |
| SquareCodec.IndicesToUci | utils/static_chess_methods.py:47-51 | the name starts with the file letter "ABCDEFGH"[col] and has at least two characters; the column must lie in [0, 7], the row is not checked |
| SquareCodec.FileMembership | utils/static_chess_methods.py:25 | a character is in "ABCDEFGH" exactly when it lies between 'A' and 'H', and sits at its offset from 'A' |
| SquareCodec.RankMembership | utils/static_chess_methods.py:25 | a character is in "12345678" exactly when it lies between '1' and '8' |
| SquareCodec.SquareNameAgrees | utils/static_chess_methods.py:47-51 | on the board, `indices_to_uci` gives the two-character name file then rank, which stripping and upper-casing leave alone |
| SquareCodec.UciRoundTrip | utils/static_chess_methods.py:4-51 | for every on-board (row, col), decoding the encoded name gives (row, col) back |
| SquareCodec.UciReverseRoundTrip | utils/static_chess_methods.py:15-51 | for every accepted text, encoding the decoded square gives the stripped, upper-cased text |
| SquareCodec.IndicesToUciInjective | utils/static_chess_methods.py:47-51 | two on-board squares have the same name exactly when they are the same square |
| SquareCodec.UciAcceptsExactlySquareNames | utils/static_chess_methods.py:15-34 | a text is accepted exactly when, stripped and upper-cased, it is the name of some on-board square; anything else (wrong length, bad file, bad rank) is rejected |
| SquareCodec.UciCornerExamples | utils/static_chess_methods.py:29-34 | A1, H1, A8 and H8 decode to (0,0), (0,7), (7,0) and (7,7) |
| SquareCodec.UciCentreExamples | utils/static_chess_methods.py:29-34 | E4 decodes to (3,4) and D5 to (4,3) |
| SquareCodec.UciLowerCaseExample | utils/static_chess_methods.py:15 | "e4" decodes to (3,4) |
| SquareCodec.UciPaddedExample | utils/static_chess_methods.py:15 | " E4 " decodes to (3,4) |
| SquareCodec.UciRejectionExamples | utils/static_chess_methods.py:18-26 | "Z9", "Invalid" and "" are rejected |
| PieceModel.Opponent | utils/check_detector.py:57 | the enemy color is never the color itself |
| PieceModel.KindChar | utils/piece.py:39-46 | each kind's letter is a lower-case ASCII letter |
| PieceModel.DisplayChar | utils/piece.py:28-52 | the letter is upper case for white and lower case for black |
| PieceModel.DisplayCharInjective | utils/piece.py:39-52 | two pieces display the same letter exactly when they are the same kind and color, so the six kinds get six distinct letters |
| PieceModel.DisplayCharExamples | utils/pieces.py:51-75 | kings show as 'K'/'k' and knights as 'N'/'n' |
| PlacedPieces.PlacedPiece.constructor | utils/pieces.py:13-26 | kind, color, row and column are stored unchanged |
| PlacedPieces.PlacedPiece.UciPos | utils/pieces.py:37-38 | the name of the piece's square starts with its file letter, and on the board it decodes back to the piece's own (row, col) |
| PlacedPieces.PlacedPiece.SetRowCol | utils/pieces.py:40-42 | the position becomes (r, c) and the kind and color stay; the new name decodes to (r, c) |
| PlacedPieces.PlacedPiece.Copy | utils/pieces.py:135-136 | a fresh object of the same kind and color on the same square |
| PlacedPieces.PlacedPiece.GetLegalMoves | utils/pieces.py:33-35 | the names the generator of the piece's kind gives from its square |
| PlacedPieces.CopyMovesAlone | utils/pieces.py:135-136 | moving a copy leaves the original where it was |
| MoveGen.Ray | utils/pieces.py:195-208 | every square of one ray is on the board, is not the mover's square, and is empty or holds the other color |
| MoveGen.Rays | utils/pieces.py:194-208 | the same holds for the rays of a list of directions |
| MoveGen.Jumps | utils/pieces.py:156-165 | every knight jump kept is on the board, is not the mover's square, and is not held by the mover's color |
| MoveGen.PawnTargets | utils/pieces.py:101-131 | every pawn target is on the board, is not the pawn's square, and is not held by the pawn's color |
| MoveGen.Targets | utils/pieces.py:101-376 | the generated squares of any kind are on the board, are never the mover's own square, and never hold a piece of the mover's color |
| MoveGen.ToUciAppend | utils/pieces.py:109-131 | naming the squares of two lists one after the other gives the two lists of names one after the other |
| MoveGen.NameInToUci | utils/check_detector.py:70 | a square's name is among the names of a list exactly when the square is in the list |
| MoveGen.RayStep | utils/pieces.py:195-208 | one step of the ray loop: off the board ends the ray; an empty square is added and the walk goes on; an enemy square is added and ends it; a friendly square ends it without being added |
| MoveGen.RayMoves | utils/pieces.py:195-208 | the inner loop's names are exactly the names of the specified ray |
| MoveGen.SlidingMoves | utils/pieces.py:194-208 | the outer loop's names are the rays of the directions, in order |
| MoveGen.JumpsStep | utils/pieces.py:159-165 | one offset adds its square's name exactly when the square is on the board and not held by the mover's color |
| MoveGen.JumpMoves | utils/pieces.py:159-165 | the offset loop's names are exactly the names of the specified jumps |
| MoveGen.KnightMoves | utils/pieces.py:156-165 | the knight's names are the jumps of the eight offsets, in the source's order |
| MoveGen.PawnAdvanceNames | utils/pieces.py:105-109 | the single-step branch names the square ahead exactly when it is empty |
| MoveGen.PawnCaptureNames | utils/pieces.py:112-125 | a capture branch names the diagonal square ahead exactly when it is on the board and holds the other color |
| MoveGen.PawnDoubleNames | utils/pieces.py:127-131 | the double-step branch names the square two ahead exactly when the pawn is on its starting row and that square is empty |
| MoveGen.PawnTargetsNames | utils/pieces.py:101-131 | the pawn's names are those of the single step, the left capture, the right capture and the double step, in that order |
| MoveGen.PawnMoves | utils/pieces.py:88-131 | the method's names are exactly the names of the specified pawn targets, in the source's order |
| MoveGen.GetLegalMoves | utils/pieces.py:88-378 | for each kind, `get_legal_moves` gives the names of the specified targets; the queen gives the rook rays followed by the bishop rays, and the king gives the same with one step |
| MoveGenFacts.StepOnRay | utils/pieces.py:196-197 | the square `k` steps along a direction lies on that ray, `k` king steps away |
| MoveGenFacts.OnRayIsStep | utils/pieces.py:196-197 | a square on a ray is the step along it numbered by its distance |
| MoveGenFacts.ReachesFromStep | utils/pieces.py:199-208 | from step `i` on, `t` is reached exactly when the square at step `i` is `t` and can be landed on, or is empty and `t` is reached from the next step |
| MoveGenFacts.RayFromMember | utils/pieces.py:195-208 | a ray holds exactly the on-board squares along it that can be landed on and have only empty squares before them |
| MoveGenFacts.RaysUpToMember | utils/pieces.py:194-208 | the first `n` rays hold exactly the squares reached along one of the first `n` directions |
| MoveGenFacts.RaysMember | utils/pieces.py:194-208 | a list of rays holds exactly the squares reached along one of its directions |
| MoveGenFacts.RookTargets | utils/pieces.py:236-250 | a rook reaches `t` exactly when `t` shares its row or column, is reached with only empty squares between, and is empty or held by the other color |
| MoveGenFacts.BishopTargets | utils/pieces.py:194-208 | a bishop reaches `t` exactly when `t` is on a diagonal and reached with only empty squares between |
| MoveGenFacts.QueenTargets | utils/pieces.py:275-313 | a queen reaches `t` exactly when a rook or a bishop on its square would |
| MoveGenFacts.KingTargets | utils/pieces.py:338-376 | a king reaches exactly the on-board squares at king distance 1 that are empty or held by the other color |
| MoveGenFacts.JumpsUpToMember | utils/pieces.py:159-165 | the first `n` offsets reach exactly the on-board squares that can be landed on and lie at one of those offsets |
| MoveGenFacts.KnightOffsetShape | utils/pieces.py:156-157 | an offset is one of the eight knight offsets exactly when it is (±2, ±1) or (±1, ±2) |
| MoveGenFacts.KnightTargets | utils/pieces.py:156-165 | a knight reaches exactly the on-board squares at (±2, ±1) or (±1, ±2) that are empty or held by the other color; squares in between are ignored |
| MoveGenFacts.PawnTargetsMember | utils/pieces.py:101-131 | a pawn reaches the empty square ahead, a diagonal square ahead held by the other color, and, from its starting row, the square two ahead when that square is empty (the square in between is not consulted); nothing else |
| ChessBoard.PositionToIndices | utils/board.py:106-125 | an accepted name always gives an on-board (row, col) |
| ChessBoard.PositionToIndicesAgrees | utils/board.py:106-125 | the board's copy of the decoder agrees with the codec on every text |
| ChessBoard.InitialGrid | utils/board.py:25-61 | the opening grid is 8x8; rows 0 and 7 hold rook, knight, bishop, queen, king, bishop, knight, rook in white and in black; rows 1 and 6 hold pawns; rows 2 to 5 are empty |
| ChessBoard.InitialCounts | utils/board.py:36-61 | the opening grid holds 16 pieces of each color and 32 in all |
| ChessBoard.RowCountUpdate | utils/board.py:161-177 | replacing one cell of a row changes its piece count by what left and what arrived |
| ChessBoard.CountUpdate | utils/board.py:161-177 | replacing one cell of a grid changes its piece count by what left and what arrived |
| ChessBoard.Put | utils/board.py:167-177 | writing one cell changes that cell and leaves every other cell as it was |
| ChessBoard.MoveResult | utils/board.py:157-179 | the grid after a move is again an 8x8 grid |
| ChessBoard.MoveCells | utils/board.py:161-177 | for distinct squares: the destination holds the moved piece, or a queen of its color when a pawn reaches its last row; the source is empty; every other cell is unchanged |
| ChessBoard.MoveOntoItself | utils/board.py:167-177 | moving a piece onto its own square erases it, unless it is a pawn on its last row, which becomes a queen |
| ChessBoard.MoveCount | utils/board.py:164-168 | the number of pieces is unchanged by a quiet move and drops by exactly one on a capture |
| ChessBoard.Board.constructor | utils/board.py:18-26 | a new board holds the opening position |
| ChessBoard.Board.SetupInitialPosition | utils/board.py:28-61 | rows 0, 1, 6 and 7 get their opening pieces and rows 2 to 5 are left as they were |
| ChessBoard.Board.PlaceBackRank | utils/board.py:36-43 | the back rank of one color is placed and every other row is left as it was |
| ChessBoard.Board.GetPiece | utils/board.py:137-140 | a malformed name gives no piece; otherwise the content of the named cell, which may be empty |
| ChessBoard.Board.MovePiece | utils/board.py:157-179 | the grid becomes the specified move result and the captured piece is the destination's old content |
| ChessBoard.SameCells | utils/board.py:25 | two 8x8 grids with the same cells are the same grid |
| CheckDetection.KingFrom | utils/check_detector.py:26-31 | a square found by the scan holds a king of the given color |
| CheckDetection.KingFromFirst | utils/check_detector.py:26-30 | the square found is the first king of that color in row-major order from the scan's start |
| CheckDetection.KingFromNone | utils/check_detector.py:26-31 | when the scan finds nothing, no square from its start on holds a king of that color |
| CheckDetection.KingSquareIsFirst | utils/check_detector.py:26-31 | `find_king` gives the first king of the color in row-major order, or nothing exactly when the color has no king |
| CheckDetection.FindKing | utils/check_detector.py:26-31 | the nested loops return exactly the square the scan specifies |
| CheckDetection.IndicesToPosition | utils/check_detector.py:87-89 | the name starts with the letter `col` places after 'A' |
| CheckDetection.IndicesToPositionAgrees | utils/check_detector.py:87-89 | on the board, the detector's copy of the encoder agrees with `indices_to_uci` |
| CheckDetection.AttackMap | utils/check_detector.py:60-71 | a square is marked exactly when it holds a piece of the other color whose generator produces the king's square |
| CheckDetection.MarkedFromMeans | utils/check_detector.py:60-73 | the scan from (row, col) finds a mark exactly when some marked square lies at or after (row, col) in row-major order |
| CheckDetection.AttacksByMoves | utils/check_detector.py:68-70 | an enemy piece attacks the king exactly when the king's name is among its generated moves |
| CheckDetection.IsInCheck | utils/check_detector.py:47-73 | the loops answer exactly the specified check: false when the color has no king, otherwise whether an attacking piece exists |
| CheckDetection.AttacksIffThreatens | utils/check_detector.py:62-70 | a square attacks the king exactly when it holds a piece of the other color whose generated squares include the king's square |
| CheckDetection.CheckHasThreat | utils/check_detector.py:60-71 | a positive scan has a witness: some square holds an enemy piece that generates the king's square |
| CheckDetection.ThreatGivesCheck | utils/check_detector.py:60-71 | any such enemy piece makes the scan positive |
| CheckDetection.InCheckBySquares | utils/check_detector.py:47-73 | a color is in check exactly when it has a king and some piece of the other color generates its square; pieces of the checked color never count |
| MoveValidation.PathWalk | utils/move_validator.py:281-293 | walking from the source towards an aligned destination stays on the board and meets the destination exactly at the last step |
| MoveValidation.ClearOneMore | utils/move_validator.py:289-293 | an empty square extends a clear stretch of the walk by one |
| MoveValidation.IsPathClear | utils/move_validator.py:281-295 | the walk ends and answers whether every square strictly between the two squares is empty; the destination is not examined |
| MoveValidation.PathIgnoresDestination | utils/move_validator.py:289-295 | whatever stands on the destination does not change the answer of the path check |
| MoveValidation.ValidatePawn | utils/move_validator.py:107-141 | an accepted pawn move goes one row forward, or two from the starting row |
| MoveValidation.PawnMessages | utils/move_validator.py:107-141 | "Pawn cannot capture forward" exactly for a straight move onto an occupied square, however far; "Path is blocked" exactly for a double step from the starting row onto an empty square over an occupied middle square; "Pawn can only move diagonally to capture" exactly for a diagonal step ahead onto an empty square; "Invalid pawn move" for every other rejection; a pawn move is accepted exactly when it is a step ahead or a double step over an empty middle square onto an empty square, or a diagonal step ahead onto a piece |
| MoveValidation.ValidateRook | utils/move_validator.py:157-164 | off its row and column the move is rejected with the rook's shape message before the path is looked at; along them it is accepted exactly when the path is clear, and otherwise rejected with "Path is blocked" |
| MoveValidation.ValidateKnight | utils/move_validator.py:180-187 | a knight move is accepted exactly when it is two king steps away and on no line, and is otherwise rejected with the knight's message |
| MoveValidation.ValidateBishop | utils/move_validator.py:202-213 | off a diagonal the move is rejected with the bishop's shape message before the path is looked at; on one it is accepted exactly when the path is clear, and otherwise rejected with "Path is blocked" |
| MoveValidation.ValidateQueen | utils/move_validator.py:228-242 | off every row, column and diagonal the move is rejected with the queen's shape message before the path is looked at; on one it is accepted exactly when the path is clear, and otherwise rejected with "Path is blocked" |
| MoveValidation.ValidateKing | utils/move_validator.py:257-264 | a king move is accepted exactly when both differences are at most 1, and is otherwise rejected with the king's message |
| MoveValidation.ValidateSquares | utils/move_validator.py:52-85 | an accepted move starts from a piece of the player's, ends on a different square, and does not land on a piece of the player's; a move is accepted exactly when its message is empty |
| MoveValidation.IsValidMove | utils/move_validator.py:44-87 | a malformed name is rejected with "Invalid position format"; an accepted move has two well-formed names and starts from a piece of the player's on a square other than the destination; a move is accepted exactly when its message is empty |
| MoveValidation.KindRule | utils/move_validator.py:74-85 | the per-kind verdict carries one of the per-kind messages, and it accepts exactly when that message is empty |
| MoveValidation.GeneralMessagesDistinct | utils/move_validator.py:49-71 | the five general messages differ from each other and from every per-kind message |
| MoveValidation.RejectionOrder | utils/move_validator.py:44-85 | the message is "Invalid position format" exactly when a name is malformed; then "No piece at source position", "That's not your piece", "Source and destination are the same" and "Cannot capture your own piece", each exactly when its check is the first to fail |
| MoveValidation.SquaresRejectionOrder | utils/move_validator.py:52-85 | the same order for two decoded squares |
| MoveValidation.SquaresMatchGenerator | utils/move_validator.py:63-85 | for the mover's own rook, knight, bishop, queen or king, the validator accepts a destination exactly when the piece's generator produces it |
| MoveValidation.ValidExactlyWhenGenerated | utils/move_validator.py:44-85 | the same, for the two names as typed |
| MoveValidation.PawnRules | utils/move_validator.py:107-141 | a pawn move is accepted exactly when it is a step ahead onto an empty square, a double step from the starting row with the destination and the middle square empty, or a diagonal step ahead onto a piece of the other color |
| MoveValidation.PawnValidatorIsStricter | utils/move_validator.py:114-130 | every pawn move the validator accepts is generated; a generated pawn move is rejected exactly when it is a double step past an occupied middle square |
| MoveValidation.BlockedPawnGrid | utils/pieces.py:127-131 | the opening grid with a black knight on E3, in front of the white pawn on E2 |
| MoveValidation.PawnJumpGenerated | utils/pieces.py:127-131 | on that grid the E2 pawn's generated moves include E4 |
| MoveValidation.PositionsE2E4 | utils/board.py:106-125 | E2 and E4 decode to (1,4) and (3,4) |
| MoveValidation.PawnJumpRejected | utils/move_validator.py:124-130 | on that grid the validator rejects E2 to E4 with "Path is blocked" |
| Text.Strip | utils/game.py:133 | the result has no whitespace at either end |
| Text.StripIsSlice | utils/game.py:133 | the result is a slice of the text with only whitespace cut from each end |
| Text.StripStripped | utils/static_chess_methods.py:15 | stripping text that has no whitespace at either end changes nothing |
| Text.Upper | utils/static_chess_methods.py:15 | the result has the text's length and each character is upper-cased in place |
| Text.ContainsAt | utils/game.py:135-141 | `sub in s` holds exactly when `sub` occurs at some position of `s` |
| Text.NotContains | utils/game.py:135-141 | a text that lacks one character of `sub` does not contain `sub` |
| Text.ContainsMiddle | utils/game.py:135-141 | a separator between two texts is contained in their join |
| Text.SplitNone | utils/game.py:136-140 | a text without the separator splits into itself alone |
| Text.SplitFirst | utils/game.py:136-140 | a separator after a text without it splits off that text as the first piece |
| Text.SplitJoin | utils/game.py:136-140 | joining the pieces of `split(sep)` with `sep` gives back the text |
| Text.SplitPiecesFree | utils/game.py:136-140 | no piece of `split(sep)` contains `sep` |
| Text.SplitFirstAt | utils/game.py:136-140 | a separator after a text in which no occurrence of it starts splits off that text as the first piece |
| Text.SplitWhitespace | utils/game.py:142 | `split()` never gives an empty piece, and no piece holds whitespace |
| Text.SplitWhitespaceRun | utils/game.py:142 | a leading run of whitespace of any length does not change the words |
| Text.SplitWhitespaceNone | utils/game.py:142 | text has no words exactly when it is all whitespace |
| Text.SplitTwoWords | utils/game.py:142 | two words with a space between split into exactly those two words |
| Text.SplitAcrossRun | utils/game.py:142 | two words with any run of whitespace between split into exactly those two words |
| Text.SplitWhitespaceFirst | utils/game.py:142 | text with a word is whitespace, its first word, and a rest that is empty or starts with whitespace; the other words are the rest's |
| Text.SplitWhitespaceTwo | utils/game.py:142 | text that splits into exactly two words is those words with whitespace around them and some whitespace between |
| Text.StripPadded | utils/game.py:149-150 | stripping whitespace padding from around non-empty stripped text gives that text |
| MoveParsing.Pieces | utils/game.py:135-144 | no pieces exactly when the text has none of ",", "-" or " "; which separator cuts is stated by ParseMoveFrom |
| MoveParsing.Normalise | utils/game.py:149-150 | the result has no whitespace at either end and no lower-case letters |
| MoveParsing.ParseMove | utils/game.py:131-152 | a move is found only when the stripped text cuts into exactly two pieces, and both parts come back stripped and upper-cased |
| MoveParsing.ParseMoveFrom | utils/game.py:131-152 | every move read is the stripped input cut once at the first separator present in the order ", ", ",", "-", whitespace, with no further copy of that separator in either piece (two whitespace-free words around a run holding a space, for whitespace), and the two names are the pieces on either side, stripped and upper-cased |
| MoveParsing.FirstCutUnique | utils/game.py:135-144 | that cut is unique, so the names read are fixed by the input |
| MoveParsing.ParseCommaBeforeDash | utils/game.py:137-140 | with a "," present the "-" is not cut at: "a,b-c" gives ("A", "B-C") |
| MoveParsing.ParseCommaSpaceBeforeComma | utils/game.py:135-138 | with a ", " present a lone "," is not cut at: "a,b, c" gives ("A,B", "C") |
| MoveParsing.ParseSpaces | utils/game.py:141-152 | two words with a run of whitespace between them that holds a space read back as the two words, upper-cased: the run counts as one separator |
| MoveParsing.ParseNoSpaceCharacter | utils/game.py:135-144 | two words with only non-space whitespace (tabs, line breaks) between them are not a move |
| MoveParsing.PiecesDashOnly | utils/game.py:135-140 | text with no comma and a single dash is cut at the dash, whatever else it holds |
| MoveParsing.ParseDashPadded | utils/game.py:139-152 | two words around a dash with whitespace on either side read back as the two words, upper-cased: the dash is looked for before the space |
| MoveParsing.ParseCommaSpace | utils/game.py:135-152 | two words joined by ", " read back as the two words, upper-cased |
| MoveParsing.ParseComma | utils/game.py:137-152 | two words joined by "," read back as the two words, upper-cased |
| MoveParsing.ParseDash | utils/game.py:139-152 | two words joined by "-" read back as the two words, upper-cased |
| MoveParsing.ParseSpace | utils/game.py:141-152 | two words joined by a space read back as the two words, upper-cased |
| MoveParsing.ParseThreeWords | utils/game.py:141-147 | three words with spaces between them are not a move |
| MoveParsing.ParseTrailingDash | utils/game.py:139-152 | a word followed by "-" gives the word and an empty destination; no square is checked |
| MoveParsing.ParseSeparatorExamples | utils/game.py:131-152 | "E2 E4", "E2-E4", "E2,E4" and "E2, E4" all give ("E2", "E4") |
| MoveParsing.ParseLowerCaseExample | utils/game.py:149-150 | "e2 e4" gives ("E2", "E4") |
| MoveParsing.ParseNoSeparatorExamples | utils/game.py:133-144 | "" and "E2" are not moves |
| MoveParsing.ParseThreeWordsExample | utils/game.py:146-147 | "E2 E4 E6" is not a move |
| MoveParsing.ParseMissingDestinationExample | utils/game.py:139-152 | "E2-" gives ("E2", "") |
| MoveParsing.ParseSpacesExample | utils/game.py:141-152 | "E2   E4" gives ("E2", "E4") |
| MoveParsing.ParseDashPaddedExample | utils/game.py:139-152 | "E2 - E4" gives ("E2", "E4") |
| MoveParsing.ParseTabExample | utils/game.py:135-144 | "E2", a tab and "E4" is not a move |

## Left out

- Board display (`Board.display`) and the `__repr__` methods: console output only.
- The interactive game loop (`Game.start`, `Game.play_turn`): console input and output. It also calls `generate_valid_moves` and `set_grid`, which do not exist in the board or validator it uses.
- Legality by simulating a move and testing for check, and the "Can't put your king in jeopardy" message: the validator as written does not do this.
- `classes.py` and `main.py`: an earlier prototype, not part of the engine. The test suites and their report tooling are not part of this model either.
- The grid reference each `pieces.py` object keeps (`self.grid`, `set_grid`): the grid is passed to `GetLegalMoves` instead. Aliasing between a piece and the board it points to is therefore not modelled.
- Python's negative-index wrap-around: for a black pawn on row 0 (`utils/pieces.py:108`) and for a negative column given to `indices_to_uci`. Both are preconditions instead.
- The `KeyError` of `__str__` for an unknown kind, and the validator's "Unknown piece type" result: kinds and colors are closed datatypes here, so neither can arise.
- Text.Upper: only ASCII letters are raised; other Unicode case mappings of Python's `upper()` are not modelled.
- MoveGen.GetLegalMoves: requires the square ahead of a pawn to exist (`CanGenerate`). The source raises an `IndexError` for a white pawn on row 7 and wraps around for a black pawn on row 0.
- PlacedPieces.PlacedPiece.GetLegalMoves: same precondition as `MoveGen.GetLegalMoves`.
- CheckDetection.IsInCheck: requires every enemy pawn to have a square ahead (`Generable`), for the same reason. When the color has no king, nothing is required, as in the source.
- CheckDetection.IndicesToPosition: requires `chr(ord('A') + col)` to be a valid character, because Dafny strings hold no surrogate code points.
- SquareCodec.IndicesToUci: requires the column to lie in [0, 7]. For a negative column the source indexes "ABCDEFGH" from its end.
- PlacedPieces.PlacedPiece.UciPos: same column precondition as `IndicesToUci`.
- ChessBoard.Board.MovePiece: requires both names to be valid and the source to hold a piece. For a malformed name the source fails with a `TypeError` before changing anything. For an empty source it first writes the empty source onto the destination and clears the source (`utils/board.py:167-168`), so the destination's piece is lost, and only then fails with an `AttributeError` (`utils/board.py:171`). Neither failure is modelled.
- MoveValidation.IsValidMove: reads the grid as a value, not through the board object. Its staged checks are split into `ValidateSquares` (the checks after decoding) and `KindRule` (the per-kind dispatch).
- MoveValidation.ValidatePawn: its own contract bounds only the rows an accepted move covers. Which message each rejected pawn move gets, and exactly which pawn moves are accepted, is stated by `MoveValidation.PawnMessages` about it.
- MoveParsing.ParseMove: its own contract states only that a move read is two normalised names from a cut into two pieces. `MoveParsing.ParseMoveFrom` states for every input which cut gives the names, and `FirstCutUnique` states that this cut is unique. `ParseCommaSpace`, `ParseComma`, `ParseDash`, `ParseSpace`, `ParseSpaces`, `ParseDashPadded`, `ParseCommaBeforeDash` and `ParseCommaSpaceBeforeComma` give the names for words around each kind of separator. When the parser fails is stated only in part, by `Pieces`, `ParseThreeWords`, `ParseNoSpaceCharacter` and the examples.
- MoveValidation.PawnJumpRejected: the rejection of E2-E4 on the blocked grid is stated for the decoded squares (1,4) and (3,4). `PositionsE2E4` connects them to the typed names.
- The two piece classes are merged. `Board` fills its grid with the data-only objects of `utils/piece.py` (`utils/board.py:8`, `utils/board.py:36-61`). Those objects have no `get_legal_moves`, so `is_in_check` on the board's own grid raises an `AttributeError` (`utils/check_detector.py:68`). The generators of `utils/pieces.py` test occupants with `isinstance(capture_piece, Piece)` against their own class (for example `utils/pieces.py:119` and `utils/pieces.py:205`). On a grid built by the board that test is false, so sliding pieces would pass through occupied squares and pawns would never capture. Here both classes are the one `Piece(kind, color)` value, every occupant counts as a piece, and neither failure is modelled.
- The `pieces.py` objects' `piece_type` property: it is the `kind` of the stored `Piece` value, not one subclass per kind.
