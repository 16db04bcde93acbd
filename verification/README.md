# Chess rules engine of `Board` (Board.java, Piece.java, ParsedMove.java)

A Dafny model of the chess rules engine in `org.example.chess.Board`. The board is an 8x8 array of
optional pieces plus:

- the side to move;
- six "has moved" castling flags;
- an optional en-passant target square;
- a per-colour, per-type piece-count table.

It covers the piece geometry, the path test, the check test, castling, the self-check exclusion,
the five accepted move notations, move execution with captures, castling and en passant, and
promotion. It also covers the legal-move enumeration and board setup with its per-side caps.
Row 0 is rank 8 and column 0 is file a. White pawns start on row 6 and move towards row 0.

The model has two layers.

- **Specification functions** (modules `Rules`, `Execution`, `Notation`, `Setup`) compute each
  operation on a value `Position(grid, turn, flags, ep, counts)`.
  - The 8x8 array is one sequence of 64 squares; cell (r, c) is index 8r + c.
  - The validators in the source write a provisional move into the array, test, and undo it. Here
    the provisional board is a value passed to the nested test.
- **The class `ChessBoard.Board`** has the source's fields, with `squares` as an `array<Square>`
  of 64 cells.
  - Each method works step by step as the Java does: the same loops, and the same provisional
    writes and restores.
  - Each method is proved to return the specification function of the old state.
  - The validators (`IsValidPieceMove`, `IsKingInCheck`, `IsValidCastlingAttempt`,
    `IsValidMoveAttempt`) are proved to leave `squares` exactly as they found it.
  - Some Java loop bodies are separate methods here, so that each loop carries its own invariant:
    `CollectCandidatesInRow`, `CollectMovesFrom`, `CollectMovesTo`, `AttacksKingFrom`,
    `LeavesKingSafe`, `IsSafePassage`, `LandingStep`, `StepKingAndTest`, `CarryOut`, `FinishMove`,
    `MoveOnBoard`, `RecordMoved`.

The lemma modules (`RulesLemmas`, `ExecutionLemmas`, `NotationLemmas`) state what the source
promises about these functions. Examples: the geometry of each piece, castling conditions,
"no move leaves the own king in check", INVALID changes nothing, turn alternation, en-passant
bookkeeping, count preservation, and parse/render round trips. `Scenarios` plays `e2e4` on a new
board, exhibits the castling defect described under Findings, shows a castling on the far back
rank that is listed as "O-O" but cannot be replayed by that string, and shows a board where the
Java's check test, unlike the model's, reports check from an enemy king off column 4.

Termination of the cycle `isKingInCheck -> isValidPieceMove -> isValidCastlingAttempt ->
isKingInCheck` uses a lexicographic measure. Its first component is the number of occupied squares,
which drops because the attacked king is lifted off the board before its attackers are tested.

Behaviour kept exactly as written:

- `isKingInCheck` tests a non-pawn attacker with `isValidPieceMove`. For an enemy king two files
  away on the same row, on row 0 or row 7, this consults the castling test with the flags of the
  side to move. The castling test consulted is the corrected one, so this consult differs from the
  Java when the enemy king is off column 4 (see "## Left out").
- The castling test accepts row 0 or row 7 whatever the mover's colour.
- `move("O-O")` always starts from column 4 of the mover's back row.

## Model

| member | source | states |
|---|---|---|
| Pieces.AllTypes | src/main/java/org/example/chess/Piece.java:6-8 | exactly six piece types exist, each listed |
| Pieces.AllColors | src/main/java/org/example/chess/Piece.java:10-12 | exactly two colours exist |
| Pieces.Opponent | src/main/java/org/example/chess/Board.java:908-914 | the opponent colour always differs from the given one |
| Pieces.AsciiChar | src/main/java/org/example/chess/Piece.java:32-41 | the glyph is one character, upper case for White and lower case for Black |
| Pieces.BlackGlyphIsLowerWhite | src/main/java/org/example/chess/Piece.java:34-39 | a black piece's glyph is the white glyph of the same type in lower case |
| Pieces.GlyphInjective | src/main/java/org/example/chess/Piece.java:34-39 | distinct pieces have distinct glyphs |
| ParsedMoves.NewParsedMove | src/main/java/org/example/chess/ParsedMove.java:17-22 | the coordinates are stored unchanged, promotionType is null and both castle flags are false |
| ParsedMoves.NewCastlingMove | src/main/java/org/example/chess/ParsedMove.java:26-30 | the same coordinates, promotionType null, and the two castle flags as given |
| Util.Sign | src/main/java/org/example/chess/Board.java:535-536 | Integer.compare direction: 1, 0 or -1 exactly as the difference is positive, zero or negative |
| Positions.CountsOfUpdate | src/main/java/org/example/chess/Board.java:99-105 | writing one cell changes the true count table by one decrement of the old piece and one increment of the new |
| Positions.CountsOfRelocate | src/main/java/org/example/chess/Board.java:432-438 | moving a piece keeps every count except the captured piece's, which drops by one |
| Setup.ZeroCounts | src/main/java/org/example/chess/Board.java:89-97 | initializePieceCounts lists every (colour, type) with count 0 |
| Setup.ZeroCountsOfEmpty | src/main/java/org/example/chess/Board.java:133-150 | the zero table is the true table of the empty board |
| Setup.InitialGrid | src/main/java/org/example/chess/Board.java:62-87 | the starting array: black back rank on row 0, black pawns on row 1, white pawns on row 6, white back rank on row 7 |
| Setup.ClearBoard | src/main/java/org/example/chess/Board.java:133-150 | clearBoard empties every square, resets all flags and the en-passant target, and keeps the turn |
| Setup.ClearBoardCounts | src/main/java/org/example/chess/Board.java:133-150 | after clearBoard the count table agrees with the board and is within every cap |
| Setup.ParsePlacement | src/main/java/org/example/chess/Board.java:152-162 | a placement string decodes iff it matches the placement pattern, and then names a square on the board |
| Setup.PlacementRoundTrip | src/main/java/org/example/chess/Board.java:152-162 | decoding a piece's glyph followed by a square gives back that piece and square |
| Setup.CanPlace | src/main/java/org/example/chess/Board.java:107-131 | placement is allowed iff the same piece already stands there or the side has fewer than the cap for that type |
| Setup.PlacePieceEffect | src/main/java/org/example/chess/Board.java:152-194 | placePiece succeeds iff the string decodes and the cap allows it; on success only the named square changes, and on failure nothing changes |
| Setup.PlacePreservesCounts | src/main/java/org/example/chess/Board.java:170-190 | placePiece keeps the count table equal to the board |
| Positions.CountOfTwo | src/main/java/org/example/chess/Board.java:107-131 | two squares holding the same piece make its count at least two |
| Setup.SingleKing | src/main/java/org/example/chess/Board.java:107-131 | on a board within the caps whose table agrees with it, a side's king stands on at most one square |
| Setup.CastlingWithinCapsSafe | src/main/java/org/example/chess/Board.java:436-455 | on a board within the caps whose table agrees with it, an executed castling leaves the mover's king out of check |
| Setup.InitialRowWithin | src/main/java/org/example/chess/Board.java:62-87 | each row of the starting array holds a piece only on that piece's home row, and no more often than its cap |
| Setup.InitialWithinCaps | src/main/java/org/example/chess/Board.java:45-60 | the new board's count table agrees with the starting array and is within every cap |
| Setup.PlacePreservesCaps | src/main/java/org/example/chess/Board.java:107-131 | placePiece never takes a side past a cap |
| Rules.FindKing | src/main/java/org/example/chess/Board.java:619-629 | a returned square is on the board and holds the king of that colour |
| RulesLemmas.FindKingIff | src/main/java/org/example/chess/Board.java:619-629 | findKing returns null iff no square holds that king |
| RulesLemmas.FindKingFirst | src/main/java/org/example/chess/Board.java:620-626 | findKing returns the first square in row-major order that holds the king |
| RulesLemmas.PathClearIff | src/main/java/org/example/chess/Board.java:534-549 | the path is clear iff every square strictly between start and end is empty |
| RulesLemmas.KnightMoveIff | src/main/java/org/example/chess/Board.java:551-617 | a knight moves iff the squared move length is 5, i.e. deltas (2,1) or (1,2) |
| RulesLemmas.SlidingMoveIff | src/main/java/org/example/chess/Board.java:551-617 | bishop, rook and queen move iff the line is of their kind and non-zero, and every square strictly between is empty |
| RulesLemmas.PawnMoveIff | src/main/java/org/example/chess/Board.java:551-617 | a pawn moves one row forward (straight or diagonal), or two rows straight from its home row over an empty square |
| RulesLemmas.KingMoveIff | src/main/java/org/example/chess/Board.java:551-617 | a king moves to an adjacent square, or two columns along its row exactly when castling is accepted |
| RulesLemmas.NoMoveInPlace | src/main/java/org/example/chess/Board.java:551-617 | no piece may move to its own square |
| RulesLemmas.CastlingIff | src/main/java/org/example/chess/Board.java:676-775 | castling is accepted iff all of these hold: king on row 0 or 7 at column 4, moving two columns; king flag clear; own rook on the corner with its flag clear; not in check; squares to the rook empty; king safe on the passed and landing squares |
| RulesLemmas.CastlingSquaresEmpty | src/main/java/org/example/chess/Board.java:722-733 | accepted castling has the passed, landing and rook-target squares empty |
| RulesLemmas.SimulationUndone | src/main/java/org/example/chess/Board.java:887-893 | writing back the mover, the captured piece and any en-passant victim restores the board |
| RulesLemmas.KingSteppedTwice | src/main/java/org/example/chess/Board.java:736-760 | the king's two single steps over an empty square equal one two-column jump |
| RulesLemmas.AttackScanIff | src/main/java/org/example/chess/Board.java:643-665 | the scan from a square finds an attacker iff some square at or after it holds one |
| RulesLemmas.InCheckIff | src/main/java/org/example/chess/Board.java:631-666 | in check iff the king is found and some square holds an attacker: a pawn one row behind it diagonally, or another opposing piece whose move reaches it with the king lifted |
| RulesLemmas.MoveAttemptSound | src/main/java/org/example/chess/Board.java:818-905 | an accepted move starts on an own piece, does not capture an own piece, has valid geometry and pawn occupation, and leaves the mover's king out of check on the simulated board |
| RulesLemmas.MoveAttemptComplete | src/main/java/org/example/chess/Board.java:818-905 | conversely, a move meeting all of those conditions is accepted |
| RulesLemmas.PawnAttemptRules | src/main/java/org/example/chess/Board.java:846-860 | a straight pawn move needs an empty target; a diagonal one needs an opponent piece, or the en-passant square with the mover on row 3 (White) or row 4 (Black) |
| RulesLemmas.EnPassantVictimRow | src/main/java/org/example/chess/Board.java:876-880 | the pawn an en-passant capture removes stands on the mover's own row |
| ExecutionLemmas.ExecutedShape | src/main/java/org/example/chess/Board.java:370-437 | an executed move is the side to move's, passed the attempt, and is Complete applied to the board with any en-passant victim removed and the captured piece's count decremented |
| ExecutionLemmas.ExecutedIffLegal | src/main/java/org/example/chess/Board.java:370-396 | a move is executed iff both squares are on the board, isValidMoveAttempt accepts it, and, for an en-passant capture, the square beside the mover holds an opponent pawn; every other call leaves the position exactly as it was |
| ExecutionLemmas.TurnAlternation | src/main/java/org/example/chess/Board.java:474-503 | VALID passes the turn; PROMOTION_PENDING keeps it, with the mover's pawn on its last row; INVALID leaves the whole position unchanged |
| ExecutionLemmas.MoveMatchesSimulation | src/main/java/org/example/chess/Board.java:867-896 | apart from castling, the board after the move is the simulated board, so the mover's own king is not in check on it |
| ExecutionLemmas.CastledKingSafe | src/main/java/org/example/chess/Board.java:436-455 | after an executed castling the mover's king is not in check, provided it is the only king of its colour |
| ExecutionLemmas.CastledBoard | src/main/java/org/example/chess/Board.java:436-455 | the board after an executed castling is the landing board the castling test checked, with the rook moved beside the king |
| ExecutionLemmas.SteppedKingSafe | src/main/java/org/example/chess/Board.java:752-765 | a king safe on its landing square, and alone of its colour, stays safe once the rook moves beside it |
| ExecutionLemmas.RookMoveKeepsKingSafe | src/main/java/org/example/chess/Board.java:446-453 | moving the castling rook onto the square beside the king cannot put that king in check |
| ExecutionLemmas.AttackBeforeRookMove | src/main/java/org/example/chess/Board.java:631-666 | any attack on the castled king after the rook's move was already an attack before it |
| ExecutionLemmas.PathBeforeRookMove | src/main/java/org/example/chess/Board.java:534-549 | a path to the castled king that is clear after the rook's move was clear before it |
| ExecutionLemmas.EnPassantTargetAfterMove | src/main/java/org/example/chess/Board.java:483-492 | after a pawn's two-row step the target is the skipped, empty square; after any other executed move it is cleared |
| ExecutionLemmas.EnPassantCaptureExecution | src/main/java/org/example/chess/Board.java:410-426 | an en-passant capture removes the opponent pawn beside the mover's start, moves the pawn diagonally, and changes no other square |
| ExecutionLemmas.CastlingMoveAccepted | src/main/java/org/example/chess/Board.java:398-402 | a two-column king move that passes the attempt is an accepted castling from column 4 |
| ExecutionLemmas.CastlingExecution | src/main/java/org/example/chess/Board.java:441-455 | executed castling puts the king two columns over and the rook 7 to 5 or 0 to 3 on the same row, and changes no other square |
| ExecutionLemmas.CastledSquares | src/main/java/org/example/chess/Board.java:436-455 | after the king jumps from column 4 and the rook move, king and rook stand side by side, the two vacated squares are empty and the rest of the board is unchanged |
| ExecutionLemmas.FlagsAfterMove | src/main/java/org/example/chess/Board.java:459-470 | a king move sets its side's king flag, a rook leaving its own corner sets that corner's flag, and no other flag changes |
| ExecutionLemmas.MovePreservesCounts | src/main/java/org/example/chess/Board.java:422-434 | movePiece keeps the count table equal to the board |
| ExecutionLemmas.CompleteKeepsCounts | src/main/java/org/example/chess/Board.java:436-455 | the board after the piece and rook moves agrees with the table less the captured piece |
| ExecutionLemmas.CastleRookCounts | src/main/java/org/example/chess/Board.java:441-455 | the castling rook's move keeps every count |
| ExecutionLemmas.FinalizePromotionEffect | src/main/java/org/example/chess/Board.java:513-531 | on a pawn, finalizePromotion puts the chosen type of the same colour there, passes the turn and changes nothing else; otherwise it changes nothing |
| ExecutionLemmas.FinalizePreservesCounts | src/main/java/org/example/chess/Board.java:520-524 | finalizePromotion keeps the count table equal to the board |
| ExecutionLemmas.PromotionCompletesTurn | src/main/java/org/example/chess/Board.java:474-531 | PROMOTION_PENDING followed by finalizePromotion leaves the chosen piece of the mover's colour on the square, with the opponent to move |
| Notation.FileChar | src/main/java/org/example/chess/Board.java:789-792 | the rendered file is a letter a-h |
| Notation.RankChar | src/main/java/org/example/chess/Board.java:789-792 | the rendered rank is a digit 1-8 |
| NotationLemmas.FullFormParse | src/main/java/org/example/chess/Board.java:241-252 | the full form always parses to two squares on the board, and rendering them gives the string back |
| NotationLemmas.FullFormValue | src/main/java/org/example/chess/Board.java:241-252 | the full form maps each square to (8 - rank digit, file - 'a') |
| NotationLemmas.CoordinateCharsInverse | src/main/java/org/example/chess/Board.java:789-792 | the row and column conversions invert the rendering |
| NotationLemmas.RenderParse | src/main/java/org/example/chess/Board.java:789-799 | a non-castling move rendered as coordinates parses back to the same move |
| NotationLemmas.PieceFormParse | src/main/java/org/example/chess/Board.java:254-354 | the three piece-letter forms parse to the source of the sole candidate, and to null when there are none or several |
| NotationLemmas.CandidatesIff | src/main/java/org/example/chess/Board.java:276-300 | a square is in the candidate list iff it holds an own piece of the type, matches the hint and passes isValidMoveAttempt |
| NotationLemmas.CandidateMeaning | src/main/java/org/example/chess/Board.java:276-300 | a candidate is an own piece of the named type, matching the hint, that passes the attempt |
| NotationLemmas.UniqueScan | src/main/java/org/example/chess/Board.java:302-311 | a scan names a source iff exactly one square passes; otherwise none does or two different ones do |
| NotationLemmas.UniqueCandidateFound | src/main/java/org/example/chess/Board.java:302-311 | a named source is a candidate and the only one |
| NotationLemmas.UniqueCandidateMissing | src/main/java/org/example/chess/Board.java:302-311 | no source is named iff no candidate exists or two different ones do |
| NotationLemmas.PieceFormUnique | src/main/java/org/example/chess/Board.java:254-354 | a piece-letter form names a source iff exactly one own piece of that type (matching the disambiguator) can legally reach the target; zero or several give null |
| NotationLemmas.SquaresFromIff | src/main/java/org/example/chess/Board.java:276-300 | the candidate scan keeps exactly the squares at or after its start that pass the test |
| NotationLemmas.MovesFromIff | src/main/java/org/example/chess/Board.java:781-810 | the enumeration keeps exactly the moves at or after its start that pass the test |
| NotationLemmas.MovesFromSkipSquare | src/main/java/org/example/chess/Board.java:784-786 | a start square none of whose moves passes contributes nothing |
| NotationLemmas.NoMovesFromForeignSquare | src/main/java/org/example/chess/Board.java:784-786 | no move passes from a square without a piece of the side to move, so skipping those squares loses nothing |
| NotationLemmas.LegalListIff | src/main/java/org/example/chess/Board.java:781-810 | a move is enumerated iff it passes isValidMoveAttempt |
| NotationLemmas.RendersIff | src/main/java/org/example/chess/Board.java:789-805 | a string is listed iff it renders some enumerated move |
| NotationLemmas.LegalMovesIff | src/main/java/org/example/chess/Board.java:781-810 | the list holds exactly the renderings of the moves that pass isValidMoveAttempt |
| NotationLemmas.LegalMovesEmptyIff | src/main/java/org/example/chess/Board.java:809-812 | the list is empty, and the result null, iff no move passes |
| NotationLemmas.MoveNotationFullForm | src/main/java/org/example/chess/Board.java:229-233 | move() on a full-form string executes the move it names |
| NotationLemmas.MoveNotationCastle | src/main/java/org/example/chess/Board.java:215-227 | move() on O-O / O-O-O moves the side to move's king from column 4 of its back row to column 6 or 2 |
| NotationLemmas.PlayBackCastle | src/main/java/org/example/chess/Board.java:795-796 | a listed castling move that starts on the mover's own back row is rendered O-O for column 6 and O-O-O for column 2, and move() on that string executes it |
| NotationLemmas.PlayBackCoords | src/main/java/org/example/chess/Board.java:801-803 | any other listed move is rendered as coordinates, and move() on that string executes it |
| Scenarios.InitialPawnMove | src/test/java/BoardTest.java:26-35 | move("e2e4") on a new board is VALID, e2 is empty, e4 holds a white pawn and Black is to move |
| Scenarios.AfterE2E4King | src/main/java/org/example/chess/Board.java:619-629 | after e2e4 findKing finds the white king on e1 |
| Scenarios.AfterE2E4Safe | src/main/java/org/example/chess/Board.java:631-666 | after e2e4 the white king is not in check |
| Scenarios.OffHomeCastlingLosesKing | src/main/java/org/example/chess/Board.java:676-680 | the guard as written admits king b1 to d1, after which the rook's move lands on the king and White has one king fewer |
| Scenarios.FarRankSafe | src/main/java/org/example/chess/Board.java:631-666 | a white king on row 0 with a white rook on h8 and the black king on a1 is not in check |
| Scenarios.FarRankCastleListed | src/main/java/org/example/chess/Board.java:218-225 | with the white king on e8, a white rook on h8 and White to move, e8g8 is accepted and listed as "O-O", but move("O-O") replays it from e1 and returns INVALID |
| Scenarios.OffHomeConsultAsWritten | src/main/java/org/example/chess/Board.java:676-775 | with the white king lifted off d1, the black king's b1d1 meets every condition of the castling test as written: guard, flags, White's rook on a1, clear path, and no white king for the nested check tests |
| Scenarios.OffHomeConsultNoCheck | src/main/java/org/example/chess/Board.java:631-666 | on that board the model's check test rejects b1d1 as an attack and reports White not in check |
| Scenarios.CastlingRookBesideKing | src/main/java/org/example/chess/Board.java:443-450 | with the home-file test the rook lands on the square the king passes, never on the king |
| ChessBoard.Board.constructor | src/main/java/org/example/chess/Board.java:45-60 | a new board is in the starting position, White to move, nothing moved, no en-passant target, counts true |
| ChessBoard.Board.SetupInitialBoard | src/main/java/org/example/chess/Board.java:62-87 | fills the empty array with the starting array, counting each piece placed |
| ChessBoard.Board.PutNew | src/main/java/org/example/chess/Board.java:99-101 | puts a piece on an empty square and increments its count, keeping the table true |
| ChessBoard.Board.ClearBoard | src/main/java/org/example/chess/Board.java:133-150 | the state after clearBoard is Setup.ClearBoard of the state before |
| ChessBoard.Board.CanPlacePiece | src/main/java/org/example/chess/Board.java:107-131 | returns Setup.CanPlace of the current state |
| ChessBoard.Board.PlacePiece | src/main/java/org/example/chess/Board.java:152-194 | the result and new state are Setup.PlacePiece of the old state |
| ChessBoard.Board.SetPlayerTurn | src/main/java/org/example/chess/Board.java:196-198 | only the side to move changes |
| ChessBoard.Board.GetPiece | src/main/java/org/example/chess/Board.java:200-206 | the square's content, or null off the board |
| ChessBoard.Board.GetCurrentPlayerTurn | src/main/java/org/example/chess/Board.java:916-918 | the side to move |
| ChessBoard.Board.SwitchTurn | src/main/java/org/example/chess/Board.java:908-914 | only the side to move changes, to the opponent |
| ChessBoard.Board.IsPathClear | src/main/java/org/example/chess/Board.java:534-549 | the while loop returns Rules.PathClear of the board |
| ChessBoard.Board.FindKing | src/main/java/org/example/chess/Board.java:619-629 | the nested loops return Rules.FindKing of the board |
| ChessBoard.Board.IsValidPieceMove | src/main/java/org/example/chess/Board.java:551-617 | returns Rules.PieceMove of the state and leaves the array unchanged |
| ChessBoard.Board.IsKingInCheck | src/main/java/org/example/chess/Board.java:631-666 | returns Rules.InCheck of the state and restores the lifted king |
| ChessBoard.Board.AttacksKingFrom | src/main/java/org/example/chess/Board.java:644-662 | one square of the scan: whether the piece there attacks the king, with the king put back |
| ChessBoard.Board.IsValidCastlingAttempt | src/main/java/org/example/chess/Board.java:676-775 | returns Rules.Castling of the state and leaves the array unchanged |
| ChessBoard.Board.IsSafePassage | src/main/java/org/example/chess/Board.java:736-773 | the two provisional king steps: returns Rules.SafePassage and restores king and rook |
| ChessBoard.Board.LandingStep | src/main/java/org/example/chess/Board.java:752-773 | the second step: whether the king is safe on the landing square, with the board restored |
| ChessBoard.Board.StepKingAndTest | src/main/java/org/example/chess/Board.java:739-746 | moves the king one step and tests for check on the resulting board |
| ChessBoard.Board.IsValidMoveAttempt | src/main/java/org/example/chess/Board.java:818-905 | returns Rules.MoveAttempt of the state and leaves the array unchanged, en-passant victim included |
| ChessBoard.Board.LeavesKingSafe | src/main/java/org/example/chess/Board.java:867-904 | simulates the move, tests for check on Rules.Simulate's board, and undoes the simulation |
| ChessBoard.Board.ParseAlgebraicNotation | src/main/java/org/example/chess/Board.java:236-359 | returns Notation.Parse of the state and leaves the array unchanged |
| ChessBoard.Board.CollectCandidates | src/main/java/org/example/chess/Board.java:276-300 | the nested loops build Notation.Candidates in scan order |
| ChessBoard.Board.CollectCandidatesInRow | src/main/java/org/example/chess/Board.java:277-299 | one row of the candidate scan |
| ChessBoard.Board.IsCandidateSquare | src/main/java/org/example/chess/Board.java:279-297 | returns Notation.IsCandidate for one square |
| ChessBoard.Board.Move | src/main/java/org/example/chess/Board.java:213-234 | result and new state are Notation.MoveNotation of the old state |
| ChessBoard.Board.MovePiece | src/main/java/org/example/chess/Board.java:370-504 | result and new state are Execution.MovePiece of the old state |
| ChessBoard.Board.CarryOut | src/main/java/org/example/chess/Board.java:398-504 | execution after the legality test, ending in Execution.MovePiece of the old state |
| ChessBoard.Board.FinishMove | src/main/java/org/example/chess/Board.java:436-504 | the piece and rook moves, flags, promotion and en-passant updates, ending in Execution.Complete |
| ChessBoard.Board.MoveOnBoard | src/main/java/org/example/chess/Board.java:436-455 | moves the piece and, for castling, the rook |
| ChessBoard.Board.RecordMoved | src/main/java/org/example/chess/Board.java:459-470 | sets the flags Execution.UpdateFlags prescribes |
| ChessBoard.Board.FinalizePromotion | src/main/java/org/example/chess/Board.java:513-531 | the new state is Execution.FinalizePromotion of the old |
| ChessBoard.Board.FindRandomLegalMove | src/main/java/org/example/chess/Board.java:778-816 | returns null iff Notation.LegalMoves is empty, and otherwise the entry picked by the choice |
| ChessBoard.Board.CollectMovesFrom | src/main/java/org/example/chess/Board.java:784-808 | the moves from one start square, appended in loop order |
| ChessBoard.Board.CollectMovesTo | src/main/java/org/example/chess/Board.java:787-806 | the moves from one start square to one end row, appended in loop order |

## Left out

- `printBoard` and `clearConsole` (Board.java:920-952), and every `System.out` / `System.err`
  message: console output. Only return values and state changes are modelled.
- `Main.java`: an interactive console loop.
- `random.nextInt` (Board.java:814): `ChessBoard.Board.FindRandomLegalMove` takes a `choice: nat` in
  its place and returns entry `choice % n` of the list. Any list entry can be chosen this way, and a
  random source is outside the model.
- Java object identity, `null` and the nested `HashMap` of counts: squares are `Option<Piece>` and
  the count table is a `map<Piece, int>`. The 8x8 array is one 64-cell array.
- ChessBoard.Board.FinalizePromotion: requires the square to be on the board. The Java indexes the
  array without a check and would throw.
- ChessBoard.Board.CanPlacePiece: requires the square to be on the board. Its only caller,
  `placePiece`, has already matched the square against `[a-h][1-8]`.
- ChessBoard.Board.IsPathClear: requires the two squares to share a row, column or diagonal. Every
  caller meets this, and off such a line the Java loop would run off the array.
- The castling defect below is corrected in the main model, so the model does not reproduce what the
  Java does on an off-home castling. There, the provisional king steps of lines 739-772 overwrite
  the unchecked passed and landing squares, and the restores then empty them.
- Rules.InCheck and Rules.AttackScan: because they consult the corrected castling test, they do
  not report the check that `isKingInCheck` reports from an enemy king off column 4. With White to
  move, nothing moved, the white king on d1, a white rook on a1 and the black king on b1,
  `isKingInCheck(WHITE)` lifts the white king (Board.java:654-657) and hands b1d1 to
  `isValidCastlingAttempt` (Board.java:607-609). That test passes its guard as written, finds
  White's rook on a1, and its nested check tests find no white king (Board.java:632-635), so it
  accepts and White is reported in check. `Scenarios.OffHomeConsultAsWritten` proves that every
  condition of the test as written holds there; `Scenarios.OffHomeConsultNoCheck` proves the model
  reports no check. On such boards `MoveAttempt`, the piece-letter candidates and `LegalMoves`
  differ from the Java in the same way.
- NotationLemmas.PlayBackCastle: requires the castling king to start on the mover's own back row.
  The castling test accepts row 0 or 7 for either colour (Board.java:677-680), and
  `findRandomLegalMove` lists any such castling as "O-O" or "O-O-O" (Board.java:795-796), but
  `move("O-O")` always replays it from the mover's own back row (Board.java:218-225). A castling on
  the far back rank is therefore listed but cannot be replayed; `Scenarios.FarRankCastleListed`
  exhibits one, where the replay returns INVALID.
- ExecutionLemmas.CastledKingSafe: requires the castling king to be the only king of its colour.
  `finalizePromotion` accepts KING as the chosen type (Board.java:512-531), so a board can hold two
  kings of one colour, and `isKingInCheck` examines only the first one `findKing` meets. With the
  caps respected and the table agreeing with the board, `Setup.SingleKing` supplies the
  requirement, and `Setup.CastlingWithinCapsSafe` states the result without it.
- Notation forms the source does not implement (promotion suffixes, `exd5`, bare `e4`): there is no
  branch for them, and they parse to null as in the source.

## Findings

| source | as written | input that shows it | evidently intended | confidence | as-written member | corrected member |
|---|---|---|---|---|---|---|
| src/main/java/org/example/chess/Board.java:676-680 | isValidCastlingAttempt checks that the king is on row 0 or 7 and moves two columns along it, but never checks that it starts on column 4, although the method's own documentation says it must | White king b1, white rook a1, black king h8, nothing moved, White to move: `b1d1` passes the castling test; movePiece then moves the a1 rook to d1, on top of the king | castling only from the king's home square e1/e8 (column 4), so the rook lands on the square the king passed | not executed | Rules.CastlingGuardAsWritten, Scenarios.OffHomeCastlingLosesKing | Rules.CastlingGuard, Scenarios.CastlingRookBesideKing, ExecutionLemmas.CastlingExecution |

`Rules.Castling`, and through it every validator and `ChessBoard.Board.IsValidCastlingAttempt`,
uses the corrected guard. With it, every validator provably restores the array it writes to.
