# Chess rules engine — a verified Dafny model

This project models the rules core of a small Python chess program: the `GameState`
object and the `Move` value of `src/ChessEngine.py`.

- **The `GameState` class.**
  - It holds an 8×8 board of two-letter piece codes, the side to move and the cached squares of both kings.
  - It also holds the move log, the en-passant target, and the `inCheck`/`pins`/`checks` fields that `getValidMoves` fills in.
  - `makeMove` and `undo` update all of this in place.
- **Move generation.**
  - `checkForPinsAndChecks` walks the eight rays and the eight knight jumps from the king's cached square. It reports the allied pieces pinned to the king and the enemy pieces giving check.
  - The per-piece generators append pseudo-legal moves to a list, and a pinned piece keeps to its pin's line.
  - `getValidMoves` combines the two:
    - out of check, every pseudo-legal move;
    - in double check, only king moves;
    - in single check, king moves plus the moves that capture the checker or block its ray.
  - King moves are made safe by moving the king's cache onto the destination and rerunning the detector there.
- **The `Move` value.**
  - It records both squares, the piece moved and the piece captured, and the promotion and en-passant flags.
  - Moves compare by a packed identifier, `moveID`.
  - A move prints as two file-and-rank names, e.g. `e2e4`.

The model has two layers.

- **Pure specification.** Each part of the rules is a function on values:
  - `Position.AfterMove` and `Position.AfterUndo` for making and undoing moves;
  - `Detector.Detect` for pins and checks;
  - the `Generator` functions for the per-piece moves;
  - `Resolver.ValidMoves` for check resolution.

  Lemmas state what those functions promise: reversibility, the check, pin and knight rules, soundness of the destinations, pin confinement, king safety, the three check-resolution cases, and that the pseudo-legal list never repeats a move.
- **Imperative model.** The class `Engine.GameState` has the source's fields. Its methods keep the source's loops and in-place updates, and each is proved against the pure layer. For example:
  - `MakeMove` ensures `Current() == AfterMove(old(Current()), m)`;
  - `CheckForPinsAndChecks` returns exactly `DetectAtKing(Current())`;
  - `GetValidMoves` returns exactly `ValidMoves(old(Current()))`. It also states where the king caches end up after the probes of the king generator.

Module layout:

| module | contents |
|---|---|
| `Wrappers` | `Option` |
| `Seqs` | concatenation of parts, with membership and associativity facts |
| `Pieces` | colours, kinds, pieces, the board |
| `Moves` | the `Move` value, `moveID` equality, notation |
| `Detector` | the check and pin detector |
| `Position` | the state value, making and undoing moves, the starting position |
| `Generator` | the pseudo-legal generators |
| `Resolver` | valid moves, checkmate and stalemate |
| `Engine` | the `GameState` class |

Coordinates follow the source: row 0 is Black's back rank, row 7 White's, column 0 is file a.

## Model

| member | source | states |
|---|---|---|
| `Moves.NewMove` | src/ChessEngine.py:449-466 | The move has the given squares and the piece on the origin. It is flagged as a promotion exactly when a pawn reaches its far rank. The en-passant flag is as passed. The captured piece is the destination's, or for an en-passant pawn move the opposite-coloured pawn. |
| `Moves.SameMoveIffSameSquares` | src/ChessEngine.py:468-476 | For on-board moves, equality by `moveID` holds exactly when origin and destination agree. Pieces and flags are ignored. |
| `Moves.DistinctAppend` | src/ChessEngine.py:473-476 | Two lists without repeated squares and with no squares in common append to a list without repeated squares. |
| `Moves.DistinctSquaresNoRepeats` | src/ChessEngine.py:467-476 | On the board, a list without repeated squares holds no two moves equal by `moveID`. |
| `Moves.RemoveFirst` | src/ChessEngine.py:168 | `list.remove` with `moveID` equality: when some move equals the argument, exactly one move goes; when none does, the list is unchanged. |
| `Moves.RemoveFirstAt` | src/ChessEngine.py:168 | If no earlier move equals the move at position i, removing that move deletes position i and nothing else. |
| `Moves.RankTablesInverse` | src/ChessEngine.py:443-444 | The rank-to-row and row-to-rank tables are inverse to each other, and rows 0..7 are exactly the keys. |
| `Moves.FileTablesInverse` | src/ChessEngine.py:446-447 | The file-to-column and column-to-file tables are inverse to each other, and columns 0..7 are exactly the keys. |
| `Moves.GetRankFile` | src/ChessEngine.py:482-483 | A square's name has two letters, and reading it back through the letter-to-index tables gives the square. |
| `Moves.GetChessNotation` | src/ChessEngine.py:479-480 | The notation has four letters; its halves read back as the origin and the destination. |
| `Moves.NotationIdentifiesMove` | src/ChessEngine.py:468-480 | Two on-board moves have the same notation exactly when they are equal by `moveID`. |
| `Position.AfterMove` | src/ChessEngine.py:29-51 | The move is logged and the side flips. The en-passant target is set exactly after a two-rank pawn move, to the square passed over. An en-passant capture empties the captured pawn's square. The destination gets the piece, or a queen on promotion. The origin is emptied, and every other square is unchanged. A king move moves that colour's king cache to the destination; the other cache, and both caches after any other move, are unchanged. |
| `Position.AfterUndo` | src/ChessEngine.py:59-77 | With an empty log nothing changes. Otherwise the last move is popped and the side flips back. Undoing a king move puts that colour's king cache back on the move's origin; the other cache is unchanged. |
| `Position.MoveKeepsCoherent` | src/ChessEngine.py:29-51 | Making an applicable move keeps both king caches on the board and every logged move applicable. |
| `Position.UndoKeepsCoherent` | src/ChessEngine.py:59-77 | Undo keeps the state coherent. |
| `Position.UndoAfterMove` | src/ChessEngine.py:29-69 | Undoing a non-en-passant move built from the current board restores the board, the side to move, both king caches and the log. For a king move, the king must have stood on its cached square. |
| `Position.UndoAfterEnPassant` | src/ChessEngine.py:44-74 | Undoing an en-passant capture made onto the current target restores the whole state, including the target. |
| `Position.UndoEnPassantTarget` | src/ChessEngine.py:44-77 | After a move and its undo, the target is the move's destination exactly when the move was an en-passant capture that is not a two-rank pawn move. Otherwise it is cleared, so the target before the move is not restored. |
| `Position.UndoLosesEnPassantTarget` | src/ChessEngine.py:44-77 | A move other than an en-passant capture, made while a target is set, leaves the target different after undo. |
| `Position.PromotionMakesQueen` | src/ChessEngine.py:40-42 | A pawn reaching its far rank is flagged as promoting, and making the move leaves a queen of its colour there. |
| `Position.EnPassantCapture` | src/ChessEngine.py:49-51 | An en-passant move records the enemy pawn as captured. Making it empties that pawn's square beside the origin and puts the capturing pawn on the destination. |
| `Position.AfterMoveKeepsKings` | src/ChessEngine.py:34-38 | If each king cache is the one square holding that king, this stays true after a move that captures no king. |
| `Position.InitialKingsConsistent` | src/ChessEngine.py:3-20 | On the corrected starting board, the caches (7,4) and (0,4) are exactly the squares of the white and black king, and the starting state is coherent. |
| `Position.SourceInitialDesync` | src/ChessEngine.py:11-20 | On the back rank as the constructor writes it, (7,4) holds the queen and (7,3) the king, so the cached white king square is wrong. |
| `Detector.Detect` | src/ChessEngine.py:179-243 | In check exactly when some check was found. Every check is on the board and holds an enemy piece. Every pin's square is on the board and holds an allied piece other than the king. |
| `Detector.ThreatensMeansAttacks` | src/ChessEngine.py:211-219 | The type test for a ray attacker holds exactly when the piece attacks the king's square from where it stands. Rooks attack orthogonally, bishops diagonally and queens both ways. Pawns attack diagonally forward by one square, and kings by one square in any direction. |
| `Detector.ScanSkipsClear` | src/ChessEngine.py:199-230 | Empty squares, and the allied king's own square, do not change the outcome of the ray scan. |
| `Detector.RayCheckFound` | src/ChessEngine.py:217-223 | An attacker with only empty squares between it and the king makes the ray report a check from it. |
| `Detector.RayPinFound` | src/ChessEngine.py:204-226 | A lone allied piece between the king and an attacker makes the ray report that piece as pinned. |
| `Detector.ScanAfterCandidate` | src/ChessEngine.py:204-228 | Once an allied piece has been passed, the ray never reports a check. Any pin it reports is of that piece, with an attacker behind it. |
| `Detector.ScanFromStart` | src/ChessEngine.py:196-230 | A ray reports a check only from an unobstructed attacker. It reports a pin only of a lone allied piece in front of an attacker. |
| `Detector.RayCheckSound` | src/ChessEngine.py:217-223 | A reported ray check comes from an attacker with a clear run to the king. |
| `Detector.RayPinSound` | src/ChessEngine.py:204-226 | A reported pin is of a lone allied piece between the king and an attacker. |
| `Detector.RayPinsMembers` | src/ChessEngine.py:196-226 | The collected pins are exactly the pins reported by the rays. |
| `Detector.RayChecksMembers` | src/ChessEngine.py:196-223 | The collected ray checks are exactly the checks reported by the rays. |
| `Detector.KnightChecksMembers` | src/ChessEngine.py:233-241 | The knight checks are exactly the enemy knights at a knight's jump from the king. |
| `Detector.RayResultOnBoard` | src/ChessEngine.py:199-226 | A ray's check or pin lies on the board, on an enemy piece or on an allied non-king piece respectively. |
| `Detector.ChecksOnBoard` | src/ChessEngine.py:194-241 | Every collected check lies on the board, on an enemy piece. |
| `Detector.PinsOnBoard` | src/ChessEngine.py:194-226 | Every collected pin lies on the board, on an allied non-king piece. |
| `Detector.DetectReportsRayChecks` | src/ChessEngine.py:217-223 | Check rule: every unobstructed ray attacker is reported, and the king is in check. |
| `Detector.DetectReportsPins` | src/ChessEngine.py:224-226 | Pin rule: every lone allied piece in front of an attacker is reported as pinned along that ray. |
| `Detector.DetectReportsKnights` | src/ChessEngine.py:233-241 | Knight rule: an enemy knight at a knight's jump is a check whatever stands between, and the king is in check. |
| `Detector.DetectSound` | src/ChessEngine.py:194-243 | Nothing else is reported. A check is an unobstructed non-knight ray attacker or an enemy knight at a jump. A pin is a lone allied piece in front of an attacker. |
| `Generator.PinDirection` | src/ChessEngine.py:264-269 | A pin direction is found exactly when the list holds a pin on the square. The direction found is one recorded for that square. |
| `Generator.SlideRayMembers` | src/ChessEngine.py:330-345 | One line of a rook or bishop yields exactly one move per destination. The destinations are the squares reached over empty squares only, that are on the board and empty or enemy-held. |
| `Generator.SlideMovesMembers` | src/ChessEngine.py:330-345 | A slider's moves are exactly the union of its lines' moves. |
| `Generator.SlideMovesSpec` | src/ChessEngine.py:316-345 | Rook and bishop destinations, both ways: a move is generated exactly when it runs along an allowed direction, over empty squares, onto an empty or enemy square. |
| `Generator.AlongPinLine` | src/ChessEngine.py:335 | A square reached along the pin direction, or its opposite, lies on the pin's line. |
| `Generator.SlideRayEnds` | src/ChessEngine.py:331-333 | A slide ends 1 to 7 steps along its direction. |
| `Generator.SlideMovesConfined` | src/ChessEngine.py:330-345 | A pinned rook, bishop or queen ends on the line of its pin. |
| `Generator.StepMovesMembers` | src/ChessEngine.py:359-368 | A single-step generator yields exactly one move per allowed offset: onto the board, onto no allied piece, and admitted by the generator's test. |
| `Generator.StepMovesShape` | src/ChessEngine.py:361-368 | A step move goes from the piece's square by one of the offsets, onto a square without an allied piece that the test admits. |
| `Generator.KingDirectionsAreSteps` | src/ChessEngine.py:416 | The king's eight directions are unit steps other than (0,0). |
| `Generator.KingMovesSafe` | src/ChessEngine.py:414-436 | Every king move goes one step onto an on-board square without an allied piece, where the detector reports no check. |
| `Generator.KingMovesComplete` | src/ChessEngine.py:414-436 | Conversely, every such safe step is generated. |
| `Generator.KnightMovesSpec` | src/ChessEngine.py:350-368 | Knight destinations, both ways: the on-board jumps onto squares without an allied piece, and none when the knight is pinned. |
| `Generator.PinnedKnightStays` | src/ChessEngine.py:352-368 | A pinned knight generates no move. |
| `Generator.PawnAdvancesShape` | src/ChessEngine.py:271-276 | Pawn advances go one square forward, or two from the home row, over empty squares onto an empty square. A pinned pawn advances only when its pin direction is exactly straight forward. |
| `Generator.PawnCaptureShape` | src/ChessEngine.py:277-289 | A pawn capture goes one square diagonally forward. A normal capture lands on an enemy piece, and a pinned pawn makes it only when its pin direction is exactly that diagonal. An en-passant capture lands on the en-passant target. |
| `Generator.PawnMovesShape` | src/ChessEngine.py:260-311 | Every pawn move has this shape, for both colours. |
| `Generator.PawnAdvancesMembers` | src/ChessEngine.py:271-276 | Both ways: a move is a pawn advance exactly when it goes k = 1 squares forward, or k = 2 from the home row, with every square passed and the destination empty, and the pawn unpinned or pinned exactly straight forward. |
| `Generator.PawnCaptureMembers` | src/ChessEngine.py:277-289 | Both ways, for one side dc: a move is generated exactly when it is the capture of an enemy piece on the forward diagonal, unpinned or pinned exactly along that diagonal, or the en-passant capture onto the target when the diagonal square holds no enemy. |
| `Generator.PawnCapturesMembers` | src/ChessEngine.py:277-289 | The same for both sides together, with the side dc ranging over -1 and 1. |
| `Generator.PawnMovesSpec` | src/ChessEngine.py:260-311 | Both ways, for both colours: a move is a pawn move exactly when it is an allowed advance, an allowed normal capture or an allowed en-passant capture, built from the board as the source builds it. |
| `Generator.SlideRayDistinct` | src/ChessEngine.py:331-345 | One ray's slide moves all end on different squares. |
| `Generator.SlideMovesDistinct` | src/ChessEngine.py:328-345 | With pairwise different unit directions, a slider's moves all end on different squares. |
| `Generator.StepMovesDistinct` | src/ChessEngine.py:359-368 | With pairwise different offsets, a single-step generator's moves all end on different squares. |
| `Generator.PawnMovesDistinct` | src/ChessEngine.py:260-311 | A pawn's advances and its two captures all end on different squares. |
| `Generator.QueenMovesDistinct` | src/ChessEngine.py:406-409 | The queen's rook moves and bishop moves all end on different squares. |
| `Generator.PieceMovesDistinct` | src/ChessEngine.py:251-254 | Each piece's moves all end on different squares. |
| `Generator.RowMovesDistinct` | src/ChessEngine.py:250-254 | No two moves of a row share both squares. |
| `Generator.RowsMovesDistinct` | src/ChessEngine.py:249-254 | No two moves of the first n rows share both squares. |
| `Generator.AllPossibleMovesDistinct` | src/ChessEngine.py:247-255 | No two pseudo-legal moves are equal by `moveID`. |
| `Generator.SlideMovesShape` | src/ChessEngine.py:330-345 | A slide starts on the slider's square and ends on the board, on an empty or enemy-held square. |
| `Generator.PieceMovesShape` | src/ChessEngine.py:247-255 | Every generated move starts on a square of the side to move, with that piece, and ends on the board. Only pawns capture en passant. Other moves never land on an allied piece. |
| `Generator.PinnedPieceConfined` | src/ChessEngine.py:260-401 | Pin confinement: a pinned piece moves only along its pin's line, except by en passant, and a pinned knight not at all. |
| `Generator.RowMovesMembers` | src/ChessEngine.py:250-254 | A row's moves are exactly the moves of its eight squares. |
| `Generator.RowsMovesMembers` | src/ChessEngine.py:249-254 | The moves of the first n rows are exactly the moves of their squares. |
| `Generator.AllPossibleMovesMembers` | src/ChessEngine.py:247-255 | The pseudo-legal list holds exactly the moves each piece generates from its own square. |
| `Generator.AllPossibleKingMovesSafe` | src/ChessEngine.py:247-255 | Every king move in the pseudo-legal list is a safe unit step onto a square without an allied piece. |
| `Resolver.Filter` | src/ChessEngine.py:164-168 | The kept moves are exactly those that move the king or end on a valid square, and there are no more of them than before. |
| `Resolver.SquaresTowardMembers` | src/ChessEngine.py:158-162 | The ray squares collected in single check are exactly those from distance i up to the checker's distance. |
| `Resolver.ValidSquaresSpec` | src/ChessEngine.py:149-162 | For a checking knight, only its square answers the check. For a ray attacker, exactly the squares from the king's neighbour up to and including the attacker do. |
| `Resolver.NotInCheckAllMoves` | src/ChessEngine.py:171-172 | Out of check, the valid moves are exactly the pseudo-legal moves. |
| `Resolver.ValidMovesArePseudoLegal` | src/ChessEngine.py:136-175 | Every valid move is pseudo-legal: a move of a piece of the side to move from its own square, applicable by `makeMove`, not onto an allied piece unless capturing en passant. This needs the king on its cached square. |
| `Resolver.DoubleCheckKingOnly` | src/ChessEngine.py:169-170 | In double check, every valid move is a safe step of the king itself. |
| `Resolver.SingleCheckFilter` | src/ChessEngine.py:146-168 | In single check, the valid moves are exactly the pseudo-legal moves that move the king or end on a valid square. |
| `Resolver.SingleCheckBlocksOrCaptures` | src/ChessEngine.py:146-168 | In single check, a valid non-king move captures the checking knight or ends on the ray from the king to the checker, checker included. |
| `Resolver.ValidKingMovesSafe` | src/ChessEngine.py:136-175 | In every case, a valid king move is a unit step onto a square without an allied piece on which the detector reports no check. |
| `Resolver.ValidMovesPinConfined` | src/ChessEngine.py:260-401 | Among the valid moves, a piece the detector found pinned moves only along its pin's line, except by en passant, and a pinned knight never moves. |
| `Resolver.StalemateIffNoPieceMoves` | src/ChessEngine.py:171-172 | With the king on its cached square and not in check, stalemate holds exactly when no square's piece generates a move, and checkmate does not hold. |
| `Resolver.SafeKingStepAvoidsMate` | src/ChessEngine.py:136-175 | A king step that is on the board, onto no allied piece and not attacked is a valid move in every case, so the position is neither checkmate nor stalemate. |
| `Resolver.DoubleCheckMateIff` | src/ChessEngine.py:169-170 | In double check, checkmate holds exactly when none of the eight king steps is safe. |
| `Resolver.DoubleCheckTrapped` | src/ChessEngine.py:169-170 | Double check with no safe king step is checkmate. |
| `Engine.CacheInRow` | src/ChessEngine.py:425-436 | During the scan of a row, the king cache is either where it started or on a square holding a king of the side to move. |
| `Engine.CacheAfterRows` | src/ChessEngine.py:247-255 | After scanning n rows, the king cache is either its old square or a square holding a king of the side to move. |
| `Engine.CacheAfterRowsUnchanged` | src/ChessEngine.py:433-436 | When the cached square holds the only allied king, the scan leaves the cache where it was. |
| `Engine.GameState.constructor` | src/ChessEngine.py:2-24 | The starting state, on the corrected board, with consistent king caches and the flags and lists cleared. |
| `Engine.GameState.MakeMove` | src/ChessEngine.py:29-51 | The new state is `AfterMove` of the old one, and the state stays coherent. |
| `Engine.GameState.Undo` | src/ChessEngine.py:59-77 | The new state is `AfterUndo` of the old one, and the state stays coherent. |
| `Engine.GameState.CheckForPinsAndChecks` | src/ChessEngine.py:179-243 | The result is the detector's answer for the king's cached square. |
| `Engine.GameState.ScanKnights` | src/ChessEngine.py:232-241 | The knight loop appends exactly the knight checks, and sets the flag when it finds one. |
| `Engine.GameState.ScanDirection` | src/ChessEngine.py:196-230 | One ray's loop appends exactly that ray's pin or check. |
| `Engine.GameState.FindPin` | src/ChessEngine.py:264-269 | The backward search of the pin list returns the pin direction of the square. |
| `Engine.GameState.GetPawnMoves` | src/ChessEngine.py:260-311 | It appends exactly the pawn moves of the square. |
| `Engine.GameState.AddPawnAdvances` | src/ChessEngine.py:271-276 | It appends exactly the pawn's advances. |
| `Engine.GameState.AddPawnCapture` | src/ChessEngine.py:277-289 | It appends exactly the capture, or en-passant capture, on one side. |
| `Engine.GameState.AddSlides` | src/ChessEngine.py:328-345 | It appends exactly the slides along the given directions. |
| `Engine.GameState.AddRay` | src/ChessEngine.py:331-345 | It appends exactly one line's slide, or nothing when the pin forbids that line. |
| `Engine.GameState.GetRookMoves` | src/ChessEngine.py:316-345 | It appends exactly the rook moves of the square. |
| `Engine.GameState.GetBishopMoves` | src/ChessEngine.py:373-401 | It appends exactly the bishop moves of the square. |
| `Engine.GameState.GetQueenMoves` | src/ChessEngine.py:406-409 | It appends the rook moves, then the bishop moves. |
| `Engine.GameState.GetKnightMoves` | src/ChessEngine.py:350-368 | It appends exactly the knight moves of the square. |
| `Engine.GameState.GetKingMoves` | src/ChessEngine.py:414-436 | It appends exactly the safe king steps. The side's king cache ends on (r,c) if some step was probed, and is otherwise unchanged. The other king's cache is unchanged. |
| `Engine.GameState.TryKingStep` | src/ChessEngine.py:419-436 | One direction of the king loop: the step is appended exactly when it is safe, and the cache rule is maintained. |
| `Engine.GameState.ProbeKingSquare` | src/ChessEngine.py:424-436 | The probe answers whether the king would be in check on the square, and leaves the cache on (r,c). |
| `Engine.GameState.GetAllPossibleMoves` | src/ChessEngine.py:247-255 | It returns exactly the pseudo-legal moves of the state it started from. The cache ends as `CacheAfterRows` says, and the other king's cache is unchanged. |
| `Engine.GameState.ScanSquare` | src/ChessEngine.py:250-254 | One square of the scan: it appends that square's moves and maintains the cache rule. |
| `Engine.GameState.GetPieceMoves` | src/ChessEngine.py:251-254 | The dispatch appends exactly the moves of the piece on the square. |
| `Engine.GameState.GetValidMoves` | src/ChessEngine.py:136-175 | It returns exactly `ValidMoves` of the old state and records the detector's answer. The caches end as `CacheAfterValidMoves` says, and the state is unchanged when the cached square holds the only allied king. |
| `Engine.GameState.MovesForDetection` | src/ChessEngine.py:145-172 | The three branches of `getValidMoves` give exactly the valid moves for the recorded detection. |
| `Engine.GameState.SingleCheckMoves` | src/ChessEngine.py:146-168 | The single-check branch returns exactly the pseudo-legal moves that answer the check. |
| `Engine.GameState.SquaresAnswering` | src/ChessEngine.py:149-162 | The loop collects exactly the squares that answer the check. |
| `Engine.GameState.RemoveUnanswered` | src/ChessEngine.py:165-168 | The backward pass of `list.remove` calls leaves exactly the filtered list, in order, whenever no two input moves are equal by `moveID` (which `Generator.AllPossibleMovesDistinct` proves for the list it is given). |

## Left out

- `src/Game.py`: not part of this model. It holds the display and input loop.
- The commented-out naive `getValidMoves`, `inCheck` and `squareUnderAttack` (lines 81-132 of `src/ChessEngine.py`) are dead code and are not modelled.
- Castling is not modelled; the source has none.
- Underpromotion is not modelled: promotion always gives a queen, as in the source.
- Draw rules are not modelled; the source has none.
- The `moveFunctions` dictionary is modelled as a `match` on the piece kind.
- The `checkmate` and `stalemate` fields are declared and initialised but never set by the core. The model keeps them as fields and defines them as `Resolver.IsCheckmate` and `Resolver.IsStalemate` on the state.
- `Engine.GameState.GetValidMoves`: the source's generators remove a piece's entry from `self.pins` once they have read it. The rook generator skips this for a queen. The model leaves `pins` as the detector returned it, so after `getValidMoves` it holds all pins, where the source holds only those not consumed. The moves are unaffected: each square is generated once, and a square is on at most one ray from the king, so it has at most one pin.
- `Engine.GameState.RemoveUnanswered`: on a list with repeated moves, `list.remove` can delete an earlier copy than the one at hand, and the contract then says nothing. The list it is given never has repeats, by `Generator.AllPossibleMovesDistinct`.
- `Generator.PawnMoves`: a pawn whose forward square is off the board gets no moves. The source would index past the board there: a wrap to the opposite rank for White, an error for Black. Promotion keeps pawns off the last rank, so this does not arise in play.
- `Generator.PawnMoves`: a pinned pawn may advance only along the exact pin direction, and capture only along the exact diagonal, as in the source. The opposite direction is not accepted.
- `Position.UndoAfterMove`: it covers everything except the en-passant target, which undo restores only partially. `Position.UndoEnPassantTarget` states exactly what the target becomes.
- `Engine.GameState.MakeMove`: promotion of a non-piece — the empty code `--` with the promotion flag — is excluded by `Position.Applicable`. The source never builds such a move.
- Integer widths do not arise: Python integers are unbounded, and every index is on the board.

## Findings

| source | as written | input that shows it | evidently intended | confidence | as-written member | corrected member |
|---|---|---|---|---|---|---|
| src/ChessEngine.py:11 | White's back rank is written `wR wN wB wK wQ wB wN wR`, putting the king on d1 = (7,3). The constructor still caches the white king at (7,4) (line 19). | The starting position: square (7,4) holds the white queen, while `whiteKingLocation` is (7,4). | The standard back rank, with the queen on d1 and the king on e1, so that the cache matches the board. | not executed | `Position.SourceInitialDesync` | `Position.InitialKingsConsistent` |

The constructor, `Engine.GameState.constructor`, builds the corrected board.

En-passant captures are generated even when the capturing pawn is pinned; the source's pawn generator does not test the pin for them. That behaviour is modelled as written. It appears as the en-passant exception in `Generator.PinnedPieceConfined` and `Resolver.ValidMovesPinConfined`.
