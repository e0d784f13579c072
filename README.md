# Chess engine core in Dafny

This project models the engine of a small bitboard chess program (package
`engine`): the position with its twelve 64-bit piece masks, making and unmaking
moves, reading and writing FEN, pseudo-legal and legal move generation, the static
evaluation, and the alpha-beta search with quiescence that picks the engine's move.

Layout, one module per concern:

- `Bitboards`: a `long` mask is the set of its set bits. `Long.bitCount` is the
  cardinality, and `Long.numberOfTrailingZeros` is the lowest member, or 64 when the
  mask is empty. The `while (b != 0) { sq = ntz(b); b &= b - 1; }` loops visit the
  members of a mask in ascending order.
- `Boards`: the state of a `Position` as a value (`Board`), with `getPieceAt`,
  `addPiece`, `removePiece`, the castling-rook helpers, `makeMove` and `unmakeMove` as
  functions. `GameStates.GameState` is the six-field snapshot.
- `Positions.Position`: the class itself. Its fields are updated in place by methods
  proved against those functions. It also has the FEN constructor and `toFEN`, with
  `Fen` holding their value-level counterparts and the round-trip proof.
- `MoveRules` (specification) and `MoveGenerator` (the static class, with the
  attack tables as arrays filled by the static initializer). `MoveLemmas` proves
  what the generated moves are, and that each can be undone.
- `Scoring` (specification) and `Evaluator` (the loops of `Evaluator.java`).
- `SearchRules` (specification), `Search` (the methods) and `SearchLemmas` (the
  proofs).
  - The search is written over an `Engine`, a record of the functions it calls:
    generate, legal moves, in-check, evaluate, make, unmake.
  - `Chess` is this program's engine.
  - The methods are proved for every engine that `Agrees` with the program's
    functions, and `ChessAgrees` shows that `Chess` does.
  - The lemmas show that the pruned search returns what plain minimax would return
    within the window (fail-soft bounds outside it). They also show that
    `findBestMove` returns the first legal move of best minimax value.

Java `int` division and remainder truncate toward zero. Where a negative operand
can occur, they are modelled by `JavaLib.JavaDiv` and `JavaLib.JavaRem`. `1L << n`
is modelled as `n % 64`, as Java masks the shift distance.

## Model

| member | source | states |
|---|---|---|
| Bitboards.BitCount | src/engine/Evaluator.java:21-29 | a mask holds at most 64 set bits |
| Bitboards.NumberOfTrailingZeros | src/engine/MoveGenerator.java:96 | the result is 64 exactly for the empty mask, else the least set square |
| Bitboards.Squares | src/engine/MoveGenerator.java:95-97 | the pop-lowest-bit loop visits every set square once, in strictly ascending order |
| Bitboards.FileMask | src/engine/Evaluator.java:153 | `0x0101010101010101L << file` holds exactly the squares of that file |
| Boards.PieceAt | src/engine/Position.java:114-130 | '.' exactly when no bitboard holds the square; otherwise a piece letter whose own bitboard holds it |
| Boards.AddToEmpty | src/engine/Position.java:320-361 | adding a piece on an empty square keeps the bitboards disjoint and changes only that square's cell |
| Boards.RemoveOccupant | src/engine/Position.java:277-318 | removing the piece getPieceAt names empties that one cell and keeps the bitboards disjoint |
| Boards.CellsDetermine | src/engine/Position.java:114-130 | two disjoint placements that answer getPieceAt alike on every square are equal |
| Boards.CastleRookMovesOneRook | src/engine/Position.java:363-381 | outside the four king patterns the rook helpers change nothing; on a pattern they move the one rook between its home and destination squares |
| Boards.CastleRookRoundTrip | src/engine/Position.java:253-274 | undoCastlingRookMove undoes handleCastlingRookMove when the rook is at home and its destination is free |
| Boards.Snapshot | src/engine/GameState.java:13-20 | the snapshot copies the four castling rights, the en-passant square and the halfmove clock |
| Boards.MakeFieldRules | src/engine/Position.java:167-201 | makeMove passes the turn, never grants a castling right, drops both of a side's rights on a king move and a corner's right when a move leaves that corner, keeps them otherwise; sets the en-passant square exactly after a pawn's two-rank step, to the square passed over; resets the clock on a capture or pawn move and otherwise adds one |
| Boards.MakePiecesCells | src/engine/Position.java:137-165 | makeMove's piece steps, cell by cell: origin emptied, capture square emptied, mover or promotion piece placed, castling rook moved |
| Boards.UnmakePiecesCells | src/engine/Position.java:211-241 | unmakeMove's piece steps, cell by cell: destination emptied, mover or pawn back on the origin, captured piece restored, rook moved back |
| Boards.UnmakeKeepsDisjoint | src/engine/Position.java:211-241 | unmaking on a consistent board keeps the twelve bitboards disjoint |
| Boards.MakeUnmakePieces | src/engine/Position.java:133-250 | on the bitboards, unmakeMove undoes makeMove for every reversible move |
| Boards.MakeUnmakeRoundTrip | src/engine/Position.java:133-250 | unmakeMove with the snapshot makeMove returned gives back the whole position, for every reversible move |
| Moves.NewMove | src/engine/Move.java:15-19 | the constructor sets from, to and the captured piece; every flag starts false |
| Moves.SetPromotion | src/engine/Move.java:21-24 | sets the promotion flag and piece and leaves every other field alone |
| Moves.SetCastling | src/engine/Move.java:26-28 | sets the castling flag and leaves every other field alone |
| Moves.SetEnPassant | src/engine/Move.java:30-32 | sets the en-passant flag and leaves every other field alone |
| Moves.SquareToString | src/engine/Move.java:50-54 | file letter then rank number; on the board, two characters a-h and 1-8 that decode back to the square |
| Moves.Suffix | src/engine/Move.java:42-45 | the annotations are empty exactly when the move is no capture, promotion, castling or en passant |
| Moves.ToString | src/engine/Move.java:37-48 | the text starts with "from-to" and is longer exactly when some annotation applies |
| JavaLib.JavaDiv | src/engine/Move.java:52 | int division truncating toward zero |
| JavaLib.JavaRem | src/engine/Move.java:51 | the remainder that goes with truncating division, with the sign of the dividend |
| JavaLib.Abs | src/engine/MoveGenerator.java:243 | Math.abs, as a natural number equal to x or -x |
| JavaLib.DigitChar | src/engine/Position.java:425 | the decimal digit character of a value 0-9 |
| JavaLib.DigitValue | src/engine/Position.java:66 | `c - '0'` of a digit is in 0-9 and its digit character is c |
| JavaLib.NatToString | src/engine/Position.java:425 | the decimal text of a natural is non-empty and all digits; a single digit below ten |
| JavaLib.IntToString | src/engine/Position.java:456 | the decimal text of an int is an integer literal |
| JavaLib.DigitsRoundTrip | src/engine/Position.java:54 | reading the digits of a natural's text gives the natural back |
| JavaLib.ParseInt | src/engine/Position.java:54 | Integer.parseInt on the text it accepts (optional sign, digits, value within the int range): an int, negative only after '-' |
| JavaLib.IntRoundTrip | src/engine/Position.java:54 | for every int, its text is accepted by Integer.parseInt and read back as the same int |
| JavaLib.SplitAll | src/engine/Position.java:36 | the pieces between separators, trailing empty pieces kept: at least one, none holding the separator |
| JavaLib.DropTrailingEmpty | src/engine/Position.java:36 | a prefix of the list that is empty or ends in a non-empty string, with only empty strings removed |
| JavaLib.Split | src/engine/Position.java:36 | String.split on one character: the text itself when the separator does not occur, otherwise separator-free parts whose last part is not empty (trailing empty parts are dropped, so the result may be empty) |
| JavaLib.SplitAllJoin | src/engine/Position.java:58 | before trailing empty parts are dropped, splitting separator-free parts joined with the separator gives them back |
| JavaLib.SplitJoin | src/engine/Position.java:58 | String.split gives back separator-free parts joined with the separator if and only if there is one part or the last part is non-empty |
| MoveRules.AllPiecesMeansOccupied | src/engine/MoveGenerator.java:174-176 | a square is in getAllPieces exactly when getPieceAt does not answer '.' |
| MoveRules.StepTargetIs | src/engine/MoveGenerator.java:73-80 | an offset reaches a square exactly when the rank and file differences equal the offset |
| MoveRules.KnightStepsExact | src/engine/MoveGenerator.java:61-83 | the eight knight offsets reach exactly the squares two ranks and one file, or one rank and two files, away |
| MoveRules.KingStepsExact | src/engine/MoveGenerator.java:120-141 | the eight king offsets reach exactly the other squares at most one rank and one file away |
| MoveGenerator.MoveList.constructor | src/engine/MoveGenerator.java:21 | a new move list is empty |
| MoveGenerator.MoveList.Add | src/engine/MoveGenerator.java:114 | appends one move at the end of the list |
| MoveGenerator.AttackTables.constructor | src/engine/MoveGenerator.java:12-17 | the static initializer fills both tables with the knight and king targets of every square |
| MoveGenerator.ComputeAttacks | src/engine/MoveGenerator.java:72-81 | the loop over the offsets collects the on-board target of each |
| MoveGenerator.ComputeKnightAttacks | src/engine/MoveGenerator.java:61-83 | the mask holds exactly the on-board knight jumps from the square |
| MoveGenerator.ComputeKingAttacks | src/engine/MoveGenerator.java:120-141 | the mask holds exactly the on-board king steps from the square |
| MoveGenerator.GetFriendlyPieces | src/engine/MoveGenerator.java:479-489 | the union of one side's six bitboards |
| MoveGenerator.GetAllPieces | src/engine/MoveGenerator.java:174-176 | the union of both sides; a square is in it exactly when it is occupied |
| MoveGenerator.AddJumpMoves | src/engine/MoveGenerator.java:95-116 | appends, per piece in ascending order, a move to each table target not held by a friend |
| MoveGenerator.AddTargetMoves | src/engine/MoveGenerator.java:106-115 | appends one move per target in ascending order, capturing what stands there |
| MoveGenerator.GenerateKnightMoves | src/engine/MoveGenerator.java:87-117 | appends the knight moves of the side |
| MoveGenerator.GenerateKingMoves | src/engine/MoveGenerator.java:144-171 | appends the king moves of the side |
| MoveGenerator.AddPromotions | src/engine/MoveGenerator.java:201-207 | appends one promotion per letter, queen, rook, bishop, knight of the mover's case |
| MoveGenerator.AddSinglePush | src/engine/MoveGenerator.java:192-214 | appends the single push, or its four promotions on the last rank |
| MoveGenerator.AddDoublePush | src/engine/MoveGenerator.java:216-231 | appends the double push from the starting rank over two empty squares |
| MoveGenerator.AddDiagonalCapture | src/engine/MoveGenerator.java:238-290 | appends the diagonal capture of an enemy piece without wrapping, with promotions on the last rank |
| MoveGenerator.AddEnPassant | src/engine/MoveGenerator.java:293-320 | appends the en-passant capture onto the en-passant square |
| MoveGenerator.AddPawnMoves | src/engine/MoveGenerator.java:192-321 | appends one pawn's moves in the source's order: push, double push, left, right, en passant |
| MoveGenerator.GeneratePawnMoves | src/engine/MoveGenerator.java:180-323 | appends the pawn moves of the side |
| MoveGenerator.AddRay | src/engine/MoveGenerator.java:380-416 | appends the moves along one direction until the edge, a friend, or a captured enemy |
| MoveGenerator.GenerateSlidingMoves | src/engine/MoveGenerator.java:376-418 | appends the rays of every direction in order |
| MoveGenerator.AddSliderMoves | src/engine/MoveGenerator.java:333-340 | appends the sliding moves of each piece, in ascending square order |
| MoveGenerator.GenerateRookMoves | src/engine/MoveGenerator.java:328-341 | appends the rook moves of the side |
| MoveGenerator.GenerateBishopMoves | src/engine/MoveGenerator.java:344-357 | appends the bishop moves of the side |
| MoveGenerator.GenerateQueenMoves | src/engine/MoveGenerator.java:359-372 | appends the queen moves of the side |
| MoveGenerator.GenerateCastlingMoves | src/engine/MoveGenerator.java:422-476 | appends king-side then queen-side castling when the right is held and the squares between are empty |
| MoveGenerator.GenerateMoves | src/engine/MoveGenerator.java:20-31 | a fresh list of the pseudo-legal moves: knights, king, pawns, rooks, bishops, queens, castling |
| MoveGenerator.AnyMoveTo | src/engine/Position.java:402-408 | true exactly when some move lands on the square |
| MoveGenerator.IsKingInCheck | src/engine/Position.java:384-409 | leaves the position as it found it; true exactly when the king exists and an opponent move lands on its square |
| MoveGenerator.OpponentMoves | src/engine/Position.java:391-399 | the opponent's moves with the turn handed over, and the turn restored afterwards |
| MoveGenerator.InCheckFrom | src/engine/Position.java:384-409 | being in check is: a king, and an opponent move to its lowest square |
| MoveGenerator.TryMove | src/engine/MoveGenerator.java:44-53 | makes, tests and unmakes one move; keeps it exactly when the mover's king is then not in check |
| MoveGenerator.FilterLegal | src/engine/MoveGenerator.java:38-56 | the filter loop over the moves, leaving the board where the last unmake left it |
| MoveGenerator.GenerateLegalMoves | src/engine/MoveGenerator.java:35-57 | on a well-formed position the position is unchanged and the result is exactly the legal moves |
| MoveLemmas.StepUnionReaches | src/engine/MoveGenerator.java:72-81 | a square is in the table entry exactly when some offset reaches it |
| MoveLemmas.KnightTableExact | src/engine/MoveGenerator.java:61-83 | the table built from the offsets is the set of knight jumps |
| MoveLemmas.KingTableExact | src/engine/MoveGenerator.java:120-141 | the table built from the offsets is the set of king steps |
| MoveLemmas.TargetMovesAre | src/engine/MoveGenerator.java:106-115 | a move is generated exactly when it goes to a target and captures what stands there |
| MoveLemmas.JumpMovesAre | src/engine/MoveGenerator.java:95-116 | a jump move is generated exactly when it starts on a piece, reaches a table target not held by a friend, and records the piece there |
| MoveLemmas.JumpMovesAvoidFriends | src/engine/MoveGenerator.java:87-171 | knight and king moves never land on a friend and are true knight jumps or king steps |
| MoveLemmas.PromotionsAre | src/engine/MoveGenerator.java:201-207 | one promotion per letter, in the letters' order |
| MoveLemmas.FourPromotions | src/engine/MoveGenerator.java:201-207 | exactly four promotions, to Q, R, B, N (lower case for black) |
| MoveLemmas.SinglePushIs | src/engine/MoveGenerator.java:192-214 | a push exists exactly when the square ahead is empty; four promotions on the last rank, one plain move elsewhere |
| MoveLemmas.DoublePushIs | src/engine/MoveGenerator.java:216-231 | a double push exists exactly from the starting rank with both squares ahead empty |
| MoveLemmas.DiagonalCaptureIs | src/engine/MoveGenerator.java:238-290 | a capture exists exactly when the target is on the board, one file over and held by the enemy |
| MoveLemmas.EnPassantIs | src/engine/MoveGenerator.java:293-320 | an en-passant move exists exactly when the diagonal reaches the en-passant square one file over |
| MoveLemmas.CastlingMovesAre | src/engine/MoveGenerator.java:422-476 | a castling move is generated exactly when its right is held and the squares between are empty |
| MoveLemmas.DirStepExact | src/engine/MoveGenerator.java:384-396 | the bounds and wrap guards of the ray loop allow exactly the one-square step in that direction |
| MoveLemmas.RayMoves | src/engine/MoveGenerator.java:380-416 | every ray move is on the board, avoids friends, moves away from the start and records the piece it captures |
| MoveLemmas.RayWalk | src/engine/MoveGenerator.java:382-416 | a ray is a chain of single steps over empty squares and stops only at the edge, a friend, or after a capture |
| MoveLemmas.SlideMovesFromAre | src/engine/MoveGenerator.java:376-418 | every sliding move starts at the piece, ends elsewhere on the board off friends, and records its capture |
| MoveLemmas.SliderMovesAre | src/engine/MoveGenerator.java:333-340 | every move of the slider loop starts on one of the pieces visited |
| MoveLemmas.SliderMovesAvoidFriends | src/engine/MoveGenerator.java:328-372 | rook, bishop and queen moves start on such a piece and never land on a friend |
| MoveLemmas.SliderFacts | src/engine/MoveGenerator.java:328-418 | rook, bishop and queen moves stay on the board, avoid friends, and capture what stands on the target |
| MoveLemmas.PlainMoveReversible | src/engine/Position.java:133-250 | a plain move to an empty square, or a capture naming the piece there, can be undone |
| MoveLemmas.JumpMovesReversible | src/engine/MoveGenerator.java:87-171 | knight and king moves can be undone |
| MoveLemmas.SliderMovesReversible | src/engine/MoveGenerator.java:328-418 | rook, bishop and queen moves can be undone |
| MoveLemmas.CastlingMovesReversible | src/engine/MoveGenerator.java:422-476 | castling moves of a well-formed position can be undone |
| MoveLemmas.PushReversible | src/engine/MoveGenerator.java:192-231 | pawn pushes can be undone |
| MoveLemmas.DiagonalReversible | src/engine/MoveGenerator.java:238-290 | diagonal pawn captures can be undone |
| MoveLemmas.EnPassantReversible | src/engine/MoveGenerator.java:293-320 | en-passant captures of a well-formed position can be undone |
| MoveLemmas.PawnMoveReversible | src/engine/MoveGenerator.java:188-321 | every move of one pawn can be undone |
| MoveLemmas.PawnMovesOfReversible | src/engine/MoveGenerator.java:180-323 | every pawn move of the side can be undone |
| MoveLemmas.GeneratedMovesReversible | src/engine/MoveGenerator.java:20-31 | every generated move of a well-formed position can be undone exactly by unmakeMove |
| MoveLemmas.LegalFilterRestores | src/engine/MoveGenerator.java:43-54 | when every move can be undone, the filter loop gives the board back and keeps exactly the legal ones |
| MoveLemmas.KeepLegalMembers | src/engine/MoveGenerator.java:43-54 | a move is kept exactly when it is in the list and leaves the mover's king out of check |
| MoveLemmas.KeepLegalInOrder | src/engine/MoveGenerator.java:43-54 | the kept moves are in the generated order |
| MoveLemmas.LegalMovesAre | src/engine/MoveGenerator.java:35-57 | on a well-formed position the legal moves are the pseudo-legal moves, in order, that do not leave the king in check, and the position comes back unchanged |
| Positions.Position.constructor | src/engine/Position.java:35-111 | the new position is what the FEN fields describe |
| Positions.Position.ReadFields | src/engine/Position.java:36-54 | side from field 1, castling letters from field 2, en-passant square from field 3, clock from field 4 |
| Positions.Position.PlacePieces | src/engine/Position.java:57-110 | the rank loop places the eight rank texts from the eighth rank down |
| Positions.Position.PlaceRankPieces | src/engine/Position.java:61-109 | one rank text: digits skip squares, letters set a bit and advance |
| Positions.Position.GetPieceAt | src/engine/Position.java:114-130 | the letter of the first bitboard holding the square, '.' when none does |
| Positions.Position.RemovePiece | src/engine/Position.java:277-318 | clears the square in the named piece's bitboard only |
| Positions.Position.AddPiece | src/engine/Position.java:320-361 | sets the square in the named piece's bitboard only |
| Positions.Position.HandleCastlingRookMove | src/engine/Position.java:363-381 | moves the castling rook from its corner to beside the king |
| Positions.Position.UndoCastlingRookMove | src/engine/Position.java:253-274 | moves the castling rook back to its corner |
| Positions.Position.MovePieces | src/engine/Position.java:137-165 | makeMove steps 2-6 on the bitboards |
| Positions.Position.UpdateCastlingRights | src/engine/Position.java:167-180 | a king move drops both of its side's rights; leaving a corner drops that corner's right |
| Positions.Position.UpdateEnPassantSquare | src/engine/Position.java:182-191 | the square a double pawn push passed over, else -1 |
| Positions.Position.UpdateHalfMoveCount | src/engine/Position.java:193-198 | reset by a capture or pawn move, else one more |
| Positions.Position.MakeMove | src/engine/Position.java:133-204 | the new state is Make of the old, and the returned snapshot is the old state's |
| Positions.Position.UnmakeMove | src/engine/Position.java:207-250 | the new state is Unmake of the old, which gives back the state before makeMove |
| Positions.Position.RestoreState | src/engine/Position.java:243-249 | the six saved fields are copied back |
| Positions.Position.UnmovePieces | src/engine/Position.java:211-241 | unmakeMove steps 2-5 on the bitboards |
| Positions.Position.ToFEN | src/engine/Position.java:412-462 | the text is the FEN of the position, which the constructor parses back |
| Positions.Position.WritePlacement | src/engine/Position.java:415-433 | the rank texts from the eighth rank down, separated by '/' |
| Positions.Position.WriteRank | src/engine/Position.java:417-431 | the letters of the rank with each run of empty squares as its length |
| Positions.Position.WriteCastling | src/engine/Position.java:438-444 | "KQkq" restricted to the rights held, or "-" |
| Positions.Position.WriteEnPassant | src/engine/Position.java:446-453 | "-" or the algebraic square, followed by a space |
| Fen.EnPassantField | src/engine/Position.java:45-52 | -1 for '-', else rank * 8 + file, on the board for a valid square name |
| Fen.CastlingText | src/engine/Position.java:438-444 | "-" exactly when no right is held; each letter present exactly when its right is held |
| Fen.RankTextChars | src/engine/Position.java:417-431 | a rank text is made of digits and piece letters only |
| Fen.RanksAvoidSeparators | src/engine/Position.java:415-433 | none of the eight rank texts contains '/' or ' ' |
| Fen.RankTextAvoids | src/engine/Position.java:417-431 | a rank text contains neither '/' nor ' ' |
| Fen.PlacementIsJoin | src/engine/Position.java:415-433 | the placement field is the rank texts joined with '/' |
| Fen.RankRoundTrip | src/engine/Position.java:64-109 | parsing a rank text that toFEN wrote puts back exactly that rank's cells |
| Fen.ReadPieceOfRank | src/engine/Position.java:64-108 | parsing skips the pending empty run, then places the letter on its square |
| Fen.ReadLetter | src/engine/Position.java:64-108 | a digit run followed by a letter places the letter after the skipped squares |
| Fen.RanksRoundTrip | src/engine/Position.java:60-110 | parsing the eight rank texts toFEN wrote puts back every cell |
| Fen.PlacementRoundTrip | src/engine/Position.java:57-110 | splitting the placement field gives eight ranks whose parse is the original placement |
| Fen.FenStringIsJoin | src/engine/Position.java:412-462 | the FEN is its six fields joined with spaces |
| Fen.FenSplit | src/engine/Position.java:36 | splitting toFEN's text on spaces gives its six fields back |
| Fen.IntTextAvoidsSpace | src/engine/Position.java:456 | the clock's text has no space |
| Fen.EnPassantTextAvoidsSpace | src/engine/Position.java:446-453 | the en-passant text has no space |
| Fen.EnPassantRoundTrip | src/engine/Position.java:45-52 | the constructor reads back the en-passant square toFEN wrote |
| Fen.FieldsRoundTrip | src/engine/Position.java:36-110 | the constructor's reading of toFEN's fields is the original position |
| Fen.RankTextNonEmpty | src/engine/Position.java:415-433 | every rank text toFEN writes is non-empty, so its placement never ends in an empty rank that split would drop |
| Fen.TrailingSlashUnreadable | src/engine/Position.java:57-60 | a placement ending in '/' splits into seven ranks, too few for the constructor's rank loop |
| Fen.HugeClockUnreadable | src/engine/Position.java:54 | a clock of 99999999999 is beyond the int range, so the FEN is unreadable whatever its other fields |
| Fen.BlankUnreadable | src/engine/Position.java:36-38 | a FEN of spaces only splits into no fields, so it is unreadable |
| Fen.FenRoundTrip | src/engine/Position.java:35-111 | `new Position(p.toFEN())` has the state of p, for disjoint bitboards and a valid en-passant square |
| Scoring.DetectGameStage | src/engine/Evaluator.java:19-36 | opening above 14 minor and major pieces, middlegame at 9-14, endgame at 8 or fewer |
| Scoring.StageNeverGoesBack | src/engine/Evaluator.java:19-36 | losing pieces never moves the stage back toward the opening |
| Scoring.SideMaterial | src/engine/Evaluator.java:45-56 | a side's material is bounded and zero exactly when it has no pawns or pieces besides the king |
| Scoring.MaterialAndPawnsAntisymmetric | src/engine/Evaluator.java:45-56 | swapping colours negates material and the doubled-pawn score |
| Scoring.FilePenalty | src/engine/Evaluator.java:151-163 | a file costs nothing exactly when it holds at most one pawn |
| Scoring.DoubledCost | src/engine/Evaluator.java:151-163 | the cost of n files is bounded by 50 per extra pawn |
| Scoring.DoubledPawns | src/engine/Evaluator.java:147-165 | the doubled-pawn score is a penalty for white and a bonus for black |
| Scoring.NoDoubledCost | src/engine/Evaluator.java:151-163 | the cost is zero exactly when no file holds two pawns |
| Scoring.DoubledPawnsZero | src/engine/Evaluator.java:147-165 | the score is zero exactly when no file holds two pawns |
| Scoring.KnightCount | src/engine/Evaluator.java:197-211 | at most one count per offset tried |
| Scoring.KnightOffsetExact | src/engine/Evaluator.java:199-209 | the rough bounds test accepts an offset exactly when it is a true on-board knight jump |
| Scoring.JumpIsOffset | src/engine/Evaluator.java:199 | every knight jump is one of the eight offsets |
| Scoring.CountedTargetsAre | src/engine/Evaluator.java:201-210 | the counted squares are the accepted offsets' targets |
| Scoring.CountedTargetsSize | src/engine/Evaluator.java:201-210 | the count equals the number of distinct counted squares |
| Scoring.CountedAreJumps | src/engine/Evaluator.java:197-211 | every counted square is a knight jump on the board |
| Scoring.JumpsAreCounted | src/engine/Evaluator.java:197-211 | every knight jump on the board is counted |
| Scoring.KnightCountIsTableSize | src/engine/Evaluator.java:197-211 | countKnightMoves equals the size of the generator's knight table entry |
| Scoring.KnightMobilitySum | src/engine/Evaluator.java:186-193 | at most 40 per knight |
| Scoring.PieceMobility | src/engine/Evaluator.java:181-195 | a side's mobility is bounded by 40 per square |
| Scoring.GetBitboardPiece | src/engine/Evaluator.java:336-354 | '.' exactly when the square is empty; otherwise a letter whose bitboard holds it |
| Scoring.BitboardPieceAgrees | src/engine/Evaluator.java:336-354 | on disjoint bitboards the evaluator's lookup agrees with getPieceAt |
| Scoring.Centralization | src/engine/Evaluator.java:268-272 | the centralisation bonus lies between 10 and 50 |
| Scoring.DistanceFromCenter | src/engine/Evaluator.java:271 | the distance from the centre lies between 0 and 4 |
| Scoring.RayHit | src/engine/Evaluator.java:314-330 | the first piece on a ray is a piece letter or '.' when the ray runs off the board |
| Scoring.EnemyIsOtherColour | src/engine/Evaluator.java:318-325 | the lower/upper case test picks exactly the other side's pieces |
| Scoring.QueenAttacks | src/engine/Evaluator.java:297-334 | at most one attacked piece per direction |
| Scoring.QueenAttacksStep | src/engine/Evaluator.java:310-331 | each direction adds one exactly when its first piece is an enemy |
| Scoring.QueenScore | src/engine/Evaluator.java:268-276 | one queen is worth between 10 and 210 |
| Scoring.QueenSum | src/engine/Evaluator.java:264-277 | the queens' total lies between 10 and 210 per queen |
| Scoring.QueenSumStep | src/engine/Evaluator.java:264-277 | the loop adds the lowest queen's centralisation and attacks, then the rest |
| Scoring.QueenActivity | src/engine/Evaluator.java:259-295 | the queen-activity score is bounded |
| Scoring.KingSafety | src/engine/Evaluator.java:215-255 | zero in the endgame, and between -400 and 100 otherwise |
| Scoring.ExposedKingsBothCount | src/engine/Evaluator.java:215-255 | both kings off their back rank cost -200 each, the black penalty included |
| Scoring.PassedIffFilesClear | src/engine/Evaluator.java:109-133 | a pawn is passed exactly when no enemy pawn stands ahead on its own or adjacent files |
| Scoring.ClearFileExcludes | src/engine/Evaluator.java:117-129 | a clear file holds no enemy pawn strictly inside the scanned ranks |
| Scoring.PassedBonus | src/engine/Evaluator.java:85-88 | the passed-pawn bonus lies between 25 and 200 |
| Scoring.PassedBonusIs | src/engine/Evaluator.java:85-101 | the bonus is 200 over one more than the distance to promotion |
| Scoring.PassedSum | src/engine/Evaluator.java:80-90 | at most 200 per pawn |
| Scoring.PassedSumStep | src/engine/Evaluator.java:80-90 | the loop adds the lowest pawn's bonus when it is passed, then the rest |
| Scoring.PassedPawns | src/engine/Evaluator.java:75-107 | the passed-pawn score is bounded |
| Scoring.Evaluation | src/engine/Evaluator.java:41-71 | every evaluation lies strictly inside plus or minus one million |
| Scoring.PassedPawnsOnlyInEndgame | src/engine/Evaluator.java:59-68 | the evaluation sums material, pawn structure, mobility and queen activity, plus king safety outside the endgame and passed pawns in it |
| Evaluator.Evaluate | src/engine/Evaluator.java:41-71 | the score is the evaluation of the placement, inside plus or minus one million |
| Evaluator.EvaluateMaterial | src/engine/Evaluator.java:45-56 | the material balance, white minus black |
| Evaluator.EvaluatePassedPawns | src/engine/Evaluator.java:75-107 | the white bonuses minus the black bonuses |
| Evaluator.IsPassedPawn | src/engine/Evaluator.java:109-133 | true exactly when no enemy pawn is ahead on the pawn's or an adjacent file |
| Evaluator.EvaluatePawnStructure | src/engine/Evaluator.java:137-145 | the sum of both sides' doubled-pawn scores |
| Evaluator.EvaluateDoubledPawns | src/engine/Evaluator.java:147-165 | minus 50 per extra pawn on a file, negated for black |
| Evaluator.EvaluateMobility | src/engine/Evaluator.java:169-179 | white's knight mobility minus black's |
| Evaluator.EvaluatePieceMobility | src/engine/Evaluator.java:181-195 | 5 per counted square of each knight |
| Evaluator.CountKnightMoves | src/engine/Evaluator.java:197-211 | between 0 and 8, and equal to the number of true knight jumps from the square |
| Evaluator.EvaluateQueenActivity | src/engine/Evaluator.java:259-295 | white queens' centralisation and attacks minus black's |
| Evaluator.CountQueenAttacks | src/engine/Evaluator.java:297-334 | the number of directions whose first piece is an enemy, 0 to 8 |
| Evaluator.FirstPieceOnRay | src/engine/Evaluator.java:314-330 | the first piece met walking the ray, '.' off the board |
| SearchRules.Captures | src/engine/Search.java:127-132 | the forcing moves are no more than the moves generated |
| SearchLemmas.CapturesAre | src/engine/Search.java:127-132 | the forcing moves are exactly the captures, in generation order |
| Search.FindBestMove | src/engine/Search.java:9-40 | the move and board the specification of findBestMove gives |
| Search.BestMoveLoop | src/engine/Search.java:16-39 | the loop keeps a move only on strict improvement, for the side saved before the loop |
| Search.Minimax | src/engine/Search.java:43-96 | the score and board of the alpha-beta specification |
| Search.SearchMove | src/engine/Search.java:67-69 | make, search one ply shallower, unmake with the snapshot |
| Search.MinimaxMaxLoop | src/engine/Search.java:63-78 | the maximising loop with its beta cut-off |
| Search.MinimaxMinLoop | src/engine/Search.java:79-95 | the minimising loop with its cut-off |
| Search.Quiesce | src/engine/Search.java:100-173 | the score and board of the quiescence specification |
| Search.ForcingMoves | src/engine/Search.java:127-132 | a fresh list of exactly the captures, in order |
| Search.SearchCapture | src/engine/Search.java:143-145 | make a capture, quiesce one ply shallower, unmake |
| Search.QuiesceMaxLoop | src/engine/Search.java:139-154 | the maximising capture loop starting from the stand-pat score |
| Search.QuiesceMinLoop | src/engine/Search.java:155-170 | the minimising capture loop starting from the stand-pat score |
| SearchLemmas.QuiesceRange | src/engine/Search.java:100-173 | with evaluations inside the int range, quiescence scores lie strictly inside it |
| SearchLemmas.QuiesceAfterRange | src/engine/Search.java:143-145 | the score of one searched capture lies strictly inside the int range |
| SearchLemmas.QuiesceMaxRange | src/engine/Search.java:139-154 | the maximising capture loop stays strictly inside the int range |
| SearchLemmas.QuiesceMinRange | src/engine/Search.java:155-170 | the minimising capture loop stays strictly inside the int range |
| SearchLemmas.MinimaxRange | src/engine/Search.java:43-96 | minimax scores, mate scores included, lie strictly inside the int range |
| SearchLemmas.MinimaxAfterRange | src/engine/Search.java:67-69 | the score of one searched move lies strictly inside the int range |
| SearchLemmas.MinimaxMaxRange | src/engine/Search.java:63-78 | the maximising loop over a non-empty list stays strictly inside the int range |
| SearchLemmas.MinimaxMinRange | src/engine/Search.java:79-95 | the minimising loop over a non-empty list stays strictly inside the int range |
| SearchLemmas.BestLoopChoice | src/engine/Search.java:16-39 | the loop returns null only for no moves, else one of the moves |
| SearchLemmas.FindBestIsLegal | src/engine/Search.java:9-40 | findBestMove returns null exactly when there is no legal move, else a legal move |
| SearchLemmas.QuiesceMaxAtLeast | src/engine/Search.java:139-154 | white's capture loop returns at least the maximum it starts from, whatever the captures lead to |
| SearchLemmas.QuiesceMinAtMost | src/engine/Search.java:155-170 | black's capture loop returns at most the minimum it starts from |
| SearchLemmas.QuiesceStandPat | src/engine/Search.java:100-170 | on any board, below beta white's quiescence score is at least the static evaluation and above alpha black's is at most it; at or beyond the window the score is the window's edge |
| SearchLemmas.QuiesceBestBound | src/engine/Search.java:139-170 | the best over the captures is no worse than the stand-pat score for the side to move |
| SearchLemmas.MinimaxBestBound | src/engine/Search.java:63-95 | the best over the moves is no worse than the starting score for the side to move |
| SearchLemmas.QuiesceAlphaBeta | src/engine/Search.java:100-173 | quiescence gives the board back; its score is the plain quiescence value inside the window, and a bound on it outside |
| SearchLemmas.QuiesceAfterAlphaBeta | src/engine/Search.java:143-145 | searching one capture leaves the board made, with a score that bounds the plain value of that capture as the window says |
| SearchLemmas.QuiesceMaxAlphaBeta | src/engine/Search.java:139-154 | the same for the maximising capture loop and its cut-off |
| SearchLemmas.QuiesceMinAlphaBeta | src/engine/Search.java:155-170 | the same for the minimising capture loop and its cut-off |
| SearchLemmas.MinimaxAlphaBeta | src/engine/Search.java:43-96 | minimax gives the board back; its score is the plain minimax value inside the window, and a bound on it outside |
| SearchLemmas.MinimaxAfterAlphaBeta | src/engine/Search.java:67-69 | searching one move leaves the board made, with a score that bounds the plain value of that move as the window says |
| SearchLemmas.MinimaxMaxAlphaBeta | src/engine/Search.java:63-78 | the same for the maximising loop and its beta cut-off |
| SearchLemmas.MinimaxMinAlphaBeta | src/engine/Search.java:79-95 | the same for the minimising loop and its cut-off |
| SearchLemmas.MinimaxAfterExact | src/engine/Search.java:21-23 | with the full int window a move's score is exactly its plain minimax value |
| SearchLemmas.BestLoopFirstBest | src/engine/Search.java:20-37 | the loop gives the board back and picks the first move of best value |
| SearchLemmas.FindBestIsFirstBest | src/engine/Search.java:9-40 | findBestMove gives the board back and returns the first legal move of best minimax value |
| SearchLemmas.ChessAgrees | src/engine/Search.java:10 | this program's engine agrees with its own generator, evaluation and make/unmake |
| SearchLemmas.ChessScoresInRange | src/engine/Search.java:102 | every static evaluation of this engine lies strictly inside the int range |
| SearchLemmas.ChessUndoes | src/engine/Search.java:21-23 | unmakeMove undoes makeMove for every reversible move |
| SearchLemmas.QuiesceSafeStep | src/engine/Search.java:126-145 | on a well-formed position every capture is undone exactly, so quiescence is safe one level up |
| SearchLemmas.MinimaxSafeStep | src/engine/Search.java:49-69 | on a well-formed position the legal-move generation and every legal move are undone exactly, so minimax is safe one level up |
| MoveLemmas.MakeKeepsCell | src/engine/Position.java:139-165 | a reversible move keeps the bitboards disjoint and leaves every square it does not touch as it was |
| MoveLemmas.MakeKeepsDisjoint | src/engine/Position.java:139-165 | a reversible move keeps the twelve bitboards disjoint |
| MoveLemmas.PawnMoveShape | src/engine/MoveGenerator.java:180-320 | a pawn's generated moves start on its square and are not castling; a two-rank step starts on the pawn's home rank, captures nothing, and passes over an empty square |
| MoveLemmas.PawnMovesShape | src/engine/MoveGenerator.java:180-320 | every generated pawn move starts on a square holding that side's pawn, with the two-rank step facts above |
| MoveLemmas.PieceMoveShape | src/engine/MoveGenerator.java:87-420 | knight, king, rook, bishop and queen moves are not castling and never start on a pawn |
| MoveLemmas.CastlingMoveShape | src/engine/MoveGenerator.java:422-470 | castling moves follow the castling pattern and start on e1/e8, where the side's king stands while it holds a right |
| MoveLemmas.GeneratedMoveShape | src/engine/MoveGenerator.java:20-31 | of all generated moves: castling starts from the own king on e1/e8; a pawn's two-rank step is a non-capture from its home rank over an empty square |
| MoveLemmas.AnchorOccupied | src/engine/Position.java:167-180 | each square a held castling right relies on holds its king or rook |
| MoveLemmas.AnchorKept | src/engine/Position.java:133-201 | after a pseudo-legal move that captures on no such square, each square a right still relies on held that right before and keeps its piece |
| MoveLemmas.AnchorStays | src/engine/Position.java:133-201 | the same, stated on the bitboard of that king or rook |
| MoveLemmas.MakeEnPassantEmpty | src/engine/Position.java:182-191 | after a pseudo-legal move the en-passant square is -1 or an empty square on the board |
| MoveLemmas.MakeKeepsWellFormed | src/engine/Position.java:133-201 | a pseudo-legal move from a well-formed board whose kings are home for their rights, that captures on no corner or king square a held right relies on, gives a well-formed board with the same property |
| SearchLemmas.CleanQuiesceSafe | src/engine/Search.java:100-173 | quiescence from such a board, when none of the captures it may make below takes such a square, is safe: every capture is undone exactly |
| SearchLemmas.SafeByInvariant | src/engine/Search.java:43-96 | for any engine, minimax is safe from every board an invariant holds on, when the invariant gives safe leaves and passes from a board to the boards its legal moves make, each of them undone |
| SearchLemmas.CleanMinimaxStep | src/engine/Search.java:49-69 | on such a board with depth left, generateLegalMoves gives the board back, each legal move is undone and leads to such a board one level down |
| SearchLemmas.CleanMinimaxSafe | src/engine/Search.java:43-96 | minimax from such a board, when no pseudo-legal move below it to the depth (nor any capture of the quiescence below) takes such a square, is safe |
| SearchLemmas.ChessFindBest | src/engine/Search.java:9-39 | findBestMove of this program on such a board leaves the position as it was and returns the first legal move of best minimax value |

## Left out

- The GUI (`BoardPanel`, `GameController`, `ChessApp`) and `SoundPlayer` are not part of this model. They only call the engine or play sounds.
- Java `int` overflow of the halfmove clock is not modelled. The clock is an unbounded integer.
- Move objects are values. The aliasing of a shared `Move` object that a caller mutates later is not modelled.
- The properties of make/unmake, legal moves and the search are proved under the conditions the code relies on:
  - The moves can be undone (`Boards.Reversible`).
  - The position is well-formed: disjoint bitboards, a valid en-passant square, and a rook on its corner for every castling right (`MoveRules.WellFormed`).
  - For the search, every board it visits stays so (`SearchRules.MinimaxSafe`, `SearchRules.QuiesceSafe`). `SearchLemmas.CleanMinimaxSafe` and `SearchLemmas.CleanQuiesceSafe` derive this from a well-formed starting board.
  - A position that breaks them, such as a rook captured on its corner while the right is kept, is still modelled as the code behaves, but nothing is claimed about its round trip.
- MoveLemmas.MakeKeepsWellFormed: also assumes each held right's king stands on e1/e8 (`MoveRules.KingsHome`) and that the move does not capture on a corner or king square a held right relies on (`MoveRules.TakesAnchor`). The source keeps a castling right after that rook is captured and can then castle without the rook, which breaks well-formedness.
- SearchLemmas.CleanQuiesceSafe, SearchLemmas.CleanMinimaxSafe and SearchLemmas.ChessFindBest: assume that no move searched below the board takes such a square (`SearchLemmas.QuiesceClean`, `SearchLemmas.MinimaxClean`). For minimax this is asked of every pseudo-legal move, not only of the legal ones the search makes.
- Fen.FenRoundTrip and Fen.FieldsRoundTrip: require the clock within the int range. Beyond it toFEN's text is refused by Integer.parseInt, and the source's own `int` clock cannot get there without the wrap-around this model leaves out.
- Search.Minimax: requires depth >= 0. With a negative depth the source never reaches its depth-0 case: it recurses until it reaches a position with no legal moves, or until the stack overflows.
- Search.FindBestMove: requires depth >= 1, for the same reason.
- Positions.Position.constructor: requires the FEN fields to be readable (`Fen.FieldsReadable`: five fields after Java's split, eight ranks, an en-passant field of two characters or with '-', a clock Integer.parseInt accepts). On other text the source throws (array index out of range or NumberFormatException), and that exception path is not modelled.
- Positions.Position.PlaceRankPieces, Positions.Position.constructor and JavaLib.ParseInt: read ASCII digits only. In Java both Integer.parseInt (Position.java:54) and the placement loop's Character.isDigit (Position.java:65) also accept non-ASCII Unicode digits. The model does not read those. In a placement field it treats such a character as a non-letter that advances one square, where Java skips `c - '0'` squares (for U+0663 that is 1587, and the masked shift then sets bit 43).
- Evaluator.CountKnightMoves, Evaluator.IsPassedPawn and Evaluator.CountQueenAttacks: require a square 0-63. The source only passes squares taken from a bitboard.
- MoveGenerator.ComputeKnightAttacks and MoveGenerator.ComputeKingAttacks: require a square 0-63. The static initializer is their only caller.
- Several pieces are separate methods (`Search.SearchMove`, `Search.BestMoveLoop`, `Evaluator.FirstPieceOnRay`, `Evaluator.EvaluateMaterial`, and the step methods of `makeMove`, `unmakeMove`, `toFEN` and the constructor). These are loop bodies, loops or numbered steps that the source writes inline.
- The search is proved for any engine that `Agrees` with the program's own functions, rather than for those functions directly. `SearchLemmas.ChessAgrees` shows that `Chess` qualifies.
- `Move.isCapture` is the predicate `Moves.IsCapture`. It has no contract of its own.
- The evaluation is not colour-symmetric:
  - An exposed king subtracts 200 for either colour (Evaluator.java:228-229 and 244-245), so two exposed kings give -400 rather than 0 (`Scoring.ExposedKingsBothCount`).
  - Queen centralisation is measured from d4, file 3 and rank 3 (Evaluator.java:271, 287). A white queen on d4 adds 50, but a black queen on the mirrored d5 subtracts only 40.
  - Only material and pawn structure are shown antisymmetric.
