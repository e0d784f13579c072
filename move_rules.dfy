/** What MoveGenerator.java produces, as functions of a Board value: the attack
    tables, the moves of each piece kind in the order the generator appends them,
    the check test of Position.isKingInCheck and the make / test / unmake filter of
    generateLegalMoves. The methods of module MoveGenerator are proved to return
    exactly these lists; the lemmas here state what the lists promise. */
module MoveRules {
  import opened Bitboards
  import opened JavaLib
  import opened Moves
  import opened Boards

  // ---------------------------------------------------------------------------
  // Occupancy

  /** getFriendlyPieces: the union of one side's six bitboards. */
  function Friendly(p: Pieces, white: bool): Bitboard
  {
    if white then p.whitePawn + p.whiteKnight + p.whiteBishop + p.whiteRook + p.whiteQueen + p.whiteKing
    else p.blackPawn + p.blackKnight + p.blackBishop + p.blackRook + p.blackQueen + p.blackKing
  }

  /** getAllPieces: both sides together. */
  function AllPieces(p: Pieces): Bitboard
  {
    Friendly(p, true) + Friendly(p, false)
  }

  /** A square is in getAllPieces exactly when getPieceAt finds a piece on it. */
  lemma AllPiecesMeansOccupied(p: Pieces, sq: Square)
    ensures sq in AllPieces(p) <==> PieceAt(p, sq) != EMPTY
  {
  }

  // ---------------------------------------------------------------------------
  // Knight and king tables

  /** A (rank, file) offset of a knight or king step. */
  type Step = (int, int)

  /** The offsets computeKnightAttacks tries, in its order. */
  const KnightSteps: seq<Step> := [(2, 1), (2, -1), (-2, 1), (-2, -1), (1, 2), (1, -2), (-1, 2), (-1, -2)]

  /** The offsets computeKingAttacks tries, in its order. */
  const KingSteps: seq<Step> := [(1, 0), (-1, 0), (0, 1), (0, -1), (1, 1), (1, -1), (-1, 1), (-1, -1)]

  /** The square one offset reaches from `square`, as a mask; empty when the new rank
      or file leaves 0..7. */
  function StepTarget(square: int, step: Step): Bitboard
  {
    var newRank, newFile := square / 8 + step.0, square % 8 + step.1;
    if 0 <= newRank < 8 && 0 <= newFile < 8 then {newRank * 8 + newFile} else {}
  }

  /** Some offset of `steps` takes `square` to `to` on the board. */
  predicate Reaches(square: int, steps: seq<Step>, to: int)
  {
    exists k :: 0 <= k < |steps| && to in StepTarget(square, steps[k])
  }

  function RankDistance(a: int, b: int): nat { Abs(a / 8 - b / 8) }

  function FileDistance(a: int, b: int): nat { Abs(a % 8 - b % 8) }

  /** A knight's L: two ranks and one file apart, or one rank and two files. */
  predicate KnightJump(from: int, to: int)
  {
    (RankDistance(from, to) == 2 && FileDistance(from, to) == 1) ||
    (RankDistance(from, to) == 1 && FileDistance(from, to) == 2)
  }

  /** A king's step: another square at most one rank and one file away. */
  predicate KingStep(from: int, to: int)
  {
    RankDistance(from, to) <= 1 && FileDistance(from, to) <= 1 && from != to
  }

  /** The squares a knight on `square` attacks, by geometry. */
  function KnightTargets(square: int): Bitboard
  {
    set to: int | 0 <= to < 64 && KnightJump(square, to)
  }

  /** The squares a king on `square` attacks, by geometry. */
  function KingTargets(square: int): Bitboard
  {
    set to: int | 0 <= to < 64 && KingStep(square, to)
  }

  /** The mask computeKnightAttacks or computeKingAttacks builds from a list of offsets:
      the union of what each offset reaches, in the order of the list. */
  function StepUnion(square: int, steps: seq<Step>): Bitboard
  {
    if |steps| == 0 then {} else StepUnion(square, steps[..|steps| - 1]) + StepTarget(square, steps[|steps| - 1])
  }

  /** A square from its rank and file. */
  lemma SquareParts(rank: int, file: int)
    requires 0 <= rank < 8 && 0 <= file < 8
    ensures (rank * 8 + file) / 8 == rank && (rank * 8 + file) % 8 == file
  {
  }

  /** One offset takes `square` to `to` exactly when the ranks and files of the two
      squares differ by that offset. */
  lemma StepTargetIs(square: int, step: Step, to: int)
    requires 0 <= square < 64 && 0 <= to < 64
    ensures to in StepTarget(square, step) <==> (to / 8 - square / 8, to % 8 - square % 8) == step
  {
    var newRank, newFile := square / 8 + step.0, square % 8 + step.1;
    if 0 <= newRank < 8 && 0 <= newFile < 8 {
      SquareParts(newRank, newFile);
    }
  }

  /** The rank and file differences of two squares, both zero only for the same square. */
  lemma SameSquare(square: int, to: int)
    requires 0 <= square < 64 && 0 <= to < 64
    ensures square == to <==> to / 8 == square / 8 && to % 8 == square % 8
  {
  }

  /** The eight knight offsets reach exactly the L-shaped squares: none wraps round
      the edge of the board. */
  lemma KnightStepsExact(square: int, to: int)
    requires 0 <= square < 64 && 0 <= to < 64
    ensures Reaches(square, KnightSteps, to) <==> KnightJump(square, to)
  {
    var dr, df := to / 8 - square / 8, to % 8 - square % 8;
    forall k | 0 <= k < |KnightSteps|
      ensures to in StepTarget(square, KnightSteps[k]) <==> KnightSteps[k] == (dr, df)
    {
      StepTargetIs(square, KnightSteps[k], to);
    }
    if KnightJump(square, to) {
      var k := if dr == 2 && df == 1 then 0
        else if dr == 2 && df == -1 then 1
        else if dr == -2 && df == 1 then 2
        else if dr == -2 && df == -1 then 3
        else if dr == 1 && df == 2 then 4
        else if dr == 1 && df == -2 then 5
        else if dr == -1 && df == 2 then 6
        else 7;
      assert to in StepTarget(square, KnightSteps[k]);
    }
  }

  /** The eight king offsets reach exactly the adjacent squares: none wraps round the
      edge of the board. */
  lemma KingStepsExact(square: int, to: int)
    requires 0 <= square < 64 && 0 <= to < 64
    ensures Reaches(square, KingSteps, to) <==> KingStep(square, to)
  {
    var dr, df := to / 8 - square / 8, to % 8 - square % 8;
    forall k | 0 <= k < |KingSteps|
      ensures to in StepTarget(square, KingSteps[k]) <==> KingSteps[k] == (dr, df)
    {
      StepTargetIs(square, KingSteps[k], to);
    }
    SameSquare(square, to);
    if KingStep(square, to) {
      var k := if dr == 1 && df == 0 then 0
        else if dr == -1 && df == 0 then 1
        else if dr == 0 && df == 1 then 2
        else if dr == 0 && df == -1 then 3
        else if dr == 1 && df == 1 then 4
        else if dr == 1 && df == -1 then 5
        else if dr == -1 && df == 1 then 6
        else 7;
      assert to in StepTarget(square, KingSteps[k]);
    }
  }

  // ---------------------------------------------------------------------------
  // Move lists, in the order the generator appends them

  /** The inner loop of the knight and king generators: one move per target, in
      ascending order, carrying getPieceAt of the target ('.' when it is empty). */
  function TargetMoves(p: Pieces, from: int, tos: seq<Square>): seq<Move>
  {
    if |tos| == 0 then []
    else [NewMove(from, tos[0], PieceAt(p, tos[0]))] + TargetMoves(p, from, tos[1..])
  }

  /** KNIGHT_ATTACKS or KING_ATTACKS. */
  function JumpTargets(king: bool, square: int): Bitboard
  {
    if king then KingTargets(square) else KnightTargets(square)
  }

  /** The outer loop of the knight and king generators over the pieces' squares. */
  function JumpMoves(p: Pieces, king: bool, froms: seq<Square>, friendly: Bitboard): seq<Move>
  {
    if |froms| == 0 then []
    else TargetMoves(p, froms[0], Squares(JumpTargets(king, froms[0]) - friendly)) +
         JumpMoves(p, king, froms[1..], friendly)
  }

  function Knights(p: Pieces, white: bool): Bitboard { if white then p.whiteKnight else p.blackKnight }
  function Kings(p: Pieces, white: bool): Bitboard { if white then p.whiteKing else p.blackKing }
  function Pawns(p: Pieces, white: bool): Bitboard { if white then p.whitePawn else p.blackPawn }
  function Rooks(p: Pieces, white: bool): Bitboard { if white then p.whiteRook else p.blackRook }
  function Bishops(p: Pieces, white: bool): Bitboard { if white then p.whiteBishop else p.blackBishop }
  function Queens(p: Pieces, white: bool): Bitboard { if white then p.whiteQueen else p.blackQueen }

  /** generateKnightMoves. */
  function KnightMoves(b: Board, white: bool): seq<Move>
  {
    JumpMoves(b.pieces, false, Squares(Knights(b.pieces, white)), Friendly(b.pieces, white))
  }

  /** generateKingMoves. */
  function KingMoves(b: Board, white: bool): seq<Move>
  {
    JumpMoves(b.pieces, true, Squares(Kings(b.pieces, white)), Friendly(b.pieces, white))
  }

  // Pawns

  /** The promotion letters, in the order the generator emits them. */
  function PromotionLetters(white: bool): seq<char>
  {
    if white then ['Q', 'R', 'B', 'N'] else ['q', 'r', 'b', 'n']
  }

  /** One promoting move per letter. */
  function Promotions(from: int, to: int, captured: char, letters: seq<char>): seq<Move>
  {
    if |letters| == 0 then []
    else [SetPromotion(NewMove(from, to, captured), letters[0])] + Promotions(from, to, captured, letters[1..])
  }

  /** The rank a pawn of that colour promotes on. */
  predicate LastRank(white: bool, sq: int)
  {
    (white && sq / 8 == 7) || (!white && sq / 8 == 0)
  }

  function PushDirection(white: bool): int { if white then 8 else -8 }

  /** Step 1 of the pawn loop: the single push to an empty square, as four promotions
      on the last rank. */
  function SinglePush(b: Board, white: bool, from: int): seq<Move>
  {
    var to := from + PushDirection(white);
    if 0 <= to < 64 && Bit(to) !in AllPieces(b.pieces) then
      if LastRank(white, to) then Promotions(from, to, NUL, PromotionLetters(white))
      else [NewMove(from, to, NUL)]
    else []
  }

  /** Step 2 of the pawn loop: the double push from the second (seventh) rank when both
      squares ahead are empty. */
  function DoublePush(b: Board, white: bool, from: int): seq<Move>
  {
    var onStartingRank := (white && from / 8 == 1) || (!white && from / 8 == 6);
    var doublePushTo := from + PushDirection(white) * 2;
    var singlePushTo := from + PushDirection(white);
    if onStartingRank && Bit(doublePushTo) !in AllPieces(b.pieces) && Bit(singlePushTo) !in AllPieces(b.pieces)
    then [NewMove(from, doublePushTo, NUL)]
    else []
  }

  function LeftCapture(white: bool, from: int): int { from + (if white then 7 else -9) }

  function RightCapture(white: bool, from: int): int { from + (if white then 9 else -7) }

  /** Step 3 of the pawn loop, for one diagonal: an enemy piece on an on-board target one
      file away, as four promotions on the last rank. */
  function DiagonalCapture(b: Board, white: bool, from: int, target: int): seq<Move>
  {
    if 0 <= target < 64 && Abs(target % 8 - from % 8) == 1 && Bit(target) in Friendly(b.pieces, !white) then
      var captured := PieceAt(b.pieces, target);
      if LastRank(white, target) then Promotions(from, target, captured, PromotionLetters(white))
      else [NewMove(from, target, captured)]
    else []
  }

  /** Step 4 of the pawn loop, for one diagonal: the target is the en-passant square one
      file away; the captured piece is read one rank behind it. */
  function EnPassantCapture(b: Board, white: bool, from: int, target: int): seq<Move>
  {
    var ep := b.enPassantSquare;
    if target == ep && Abs(from % 8 - JavaRem(ep, 8)) == 1 then
      [SetEnPassant(NewMove(from, ep, PieceAt(b.pieces, EnPassantVictim(white, ep))))]
    else []
  }

  /** The moves of one pawn, in the order of steps 1 to 4. */
  function PawnMovesFrom(b: Board, white: bool, from: int): seq<Move>
  {
    SinglePush(b, white, from) + DoublePush(b, white, from) +
    DiagonalCapture(b, white, from, LeftCapture(white, from)) +
    DiagonalCapture(b, white, from, RightCapture(white, from)) +
    (if b.enPassantSquare != -1 then
       EnPassantCapture(b, white, from, LeftCapture(white, from)) +
       EnPassantCapture(b, white, from, RightCapture(white, from))
     else [])
  }

  function PawnMovesOf(b: Board, white: bool, froms: seq<Square>): seq<Move>
  {
    if |froms| == 0 then [] else PawnMovesFrom(b, white, froms[0]) + PawnMovesOf(b, white, froms[1..])
  }

  /** generatePawnMoves. */
  function PawnMoves(b: Board, white: bool): seq<Move>
  {
    PawnMovesOf(b, white, Squares(Pawns(b.pieces, white)))
  }

  // Sliders

  /** The (rank, file) offset of one step along a sliding direction. */
  function DirStep(dir: int): Step
  {
    (if dir >= 7 then 1 else if dir <= -7 then -1 else 0,
     if dir == 1 || dir == 9 || dir == -7 then 1 else if dir == -1 || dir == 7 || dir == -9 then -1 else 0)
  }

  const RookDirections: seq<int> := [8, -8, 1, -1]
  const BishopDirections: seq<int> := [9, 7, -7, -9]
  const QueenDirections: seq<int> := [8, -8, 1, -1, 9, 7, -7, -9]

  /** The wrap-around guard of generateSlidingMoves: for the sideways and diagonal
      directions the file must move by exactly one from the previous square. */
  predicate Wraps(to: int, dir: int)
  {
    var toFile := JavaRem(to, 8);
    var prevFile := JavaRem(to - dir, 8);
    (dir == 1 && toFile != prevFile + 1) || (dir == -1 && toFile != prevFile - 1) ||
    (dir == 9 && toFile != prevFile + 1) || (dir == 7 && toFile != prevFile - 1) ||
    (dir == -7 && toFile != prevFile + 1) || (dir == -9 && toFile != prevFile - 1)
  }

  /** The `while (true)` of generateSlidingMoves from square `to` on: stop off the board,
      on a wrap or before a friendly piece; take an enemy piece and stop; otherwise add
      a quiet move and go on. */
  function Ray(p: Pieces, from: int, dir: int, to: int, friendly: Bitboard, all: Bitboard): seq<Move>
    requires dir != 0
    decreases if dir > 0 then 64 - to else to + 1
  {
    if to < 0 || to >= 64 || Wraps(to, dir) then []
    else if Bit(to) in friendly then []
    else if Bit(to) in all then [NewMove(from, to, PieceAt(p, to))]
    else [NewMove(from, to, NUL)] + Ray(p, from, dir, to + dir, friendly, all)
  }

  /** generateSlidingMoves: the rays in the order of `dirs`. */
  function SlideMovesFrom(p: Pieces, from: int, dirs: seq<int>, friendly: Bitboard, all: Bitboard): seq<Move>
    requires 0 !in dirs
  {
    if |dirs| == 0 then []
    else Ray(p, from, dirs[0], from + dirs[0], friendly, all) + SlideMovesFrom(p, from, dirs[1..], friendly, all)
  }

  /** The loop of the rook, bishop and queen generators over the pieces' squares. */
  function SliderMoves(p: Pieces, froms: seq<Square>, dirs: seq<int>, friendly: Bitboard, all: Bitboard): seq<Move>
    requires 0 !in dirs
  {
    if |froms| == 0 then []
    else SlideMovesFrom(p, froms[0], dirs, friendly, all) + SliderMoves(p, froms[1..], dirs, friendly, all)
  }

  /** generateRookMoves. */
  function RookMoves(b: Board, white: bool): seq<Move>
  {
    SliderMoves(b.pieces, Squares(Rooks(b.pieces, white)), RookDirections, Friendly(b.pieces, white), AllPieces(b.pieces))
  }

  /** generateBishopMoves. */
  function BishopMoves(b: Board, white: bool): seq<Move>
  {
    SliderMoves(b.pieces, Squares(Bishops(b.pieces, white)), BishopDirections, Friendly(b.pieces, white), AllPieces(b.pieces))
  }

  /** generateQueenMoves. */
  function QueenMoves(b: Board, white: bool): seq<Move>
  {
    SliderMoves(b.pieces, Squares(Queens(b.pieces, white)), QueenDirections, Friendly(b.pieces, white), AllPieces(b.pieces))
  }

  // Castling

  /** One castling move, when it is allowed. */
  function CastleIf(allowed: bool, from: int, to: int): seq<Move>
  {
    if allowed then [SetCastling(NewMove(from, to, NUL))] else []
  }

  /** generateCastlingMoves: king side first, then queen side; each needs its right and
      the squares strictly between king and rook empty. */
  function CastlingMoves(b: Board, white: bool): seq<Move>
  {
    var all := AllPieces(b.pieces);
    if white then
      CastleIf(b.whiteCanCastleKingside && 5 !in all && 6 !in all, 4, 6) +
      CastleIf(b.whiteCanCastleQueenside && 1 !in all && 2 !in all && 3 !in all, 4, 2)
    else
      CastleIf(b.blackCanCastleKingside && 61 !in all && 62 !in all, 60, 62) +
      CastleIf(b.blackCanCastleQueenside && 57 !in all && 58 !in all && 59 !in all, 60, 58)
  }

  /** generateMoves: knights, king, pawns, rooks, bishops, queens, castling, for the side
      to move. */
  function PseudoLegalMoves(b: Board): seq<Move>
  {
    var white := b.isWhiteTurn;
    KnightMoves(b, white) + KingMoves(b, white) + PawnMoves(b, white) + RookMoves(b, white) +
    BishopMoves(b, white) + QueenMoves(b, white) + CastlingMoves(b, white)
  }

  // ---------------------------------------------------------------------------
  // Check and legality

  /** Some move of the list lands on `sq`. */
  predicate Hits(moves: seq<Move>, sq: int)
  {
    exists i :: 0 <= i < |moves| && moves[i].to == sq
  }

  /** isKingInCheck: the king of that colour exists and some pseudo-legal move of the
      other side, generated with the turn handed to it, lands on the king's (lowest)
      square. */
  predicate InCheck(b: Board, white: bool)
  {
    var king := Kings(b.pieces, white);
    king != {} && Hits(Attacks(b, white), NumberOfTrailingZeros(king))
  }

  /** The pseudo-legal moves of the side other than `white`, generated with the turn
      handed to it. */
  function Attacks(b: Board, white: bool): seq<Move>
  {
    PseudoLegalMoves(b.(isWhiteTurn := !white))
  }

  /** The loop of generateLegalMoves on a value: each move is made, kept when the
      mover's king is not in check afterwards, and unmade with its snapshot; the next
      move starts from what unmakeMove gave back. The board at the end and the kept
      moves. */
  function LegalFilter(b: Board, white: bool, moves: seq<Move>): (Board, seq<Move>)
    decreases |moves|
  {
    if |moves| == 0 then (b, [])
    else
      var step := FilterStep(b, white, moves[0]);
      var rest := LegalFilter(step.0, white, moves[1..]);
      (rest.0, step.1 + rest.1)
  }

  /** One turn of that loop: the board unmakeMove gives back, and the move itself when
      the mover's king is not in check after it. */
  function FilterStep(b: Board, white: bool, m: Move): (Board, seq<Move>)
  {
    var after := Make(b, m);
    (Unmake(after, m, Snapshot(b)), if !InCheck(after, white) then [m] else [])
  }

  /** The moves of the list after which the mover's king is not in check. */
  function KeepLegal(b: Board, white: bool, moves: seq<Move>): seq<Move>
  {
    if |moves| == 0 then []
    else (if !InCheck(Make(b, moves[0]), white) then [moves[0]] else []) + KeepLegal(b, white, moves[1..])
  }

  /** `a` is `b` with some elements left out, the rest in their original order. */
  predicate IsSubsequence(a: seq<Move>, b: seq<Move>)
    decreases |b|
  {
    if |a| == 0 then true
    else if |b| == 0 then false
    else if a[0] == b[0] then IsSubsequence(a[1..], b[1..])
    else IsSubsequence(a, b[1..])
  }

  /** generateLegalMoves on a value. */
  function LegalMoves(b: Board): seq<Move>
  {
    LegalFilter(b, b.isWhiteTurn, PseudoLegalMoves(b)).1
  }

  /** What the generator relies on and the engine keeps: disjoint bitboards, an en-passant
      square that is -1 or an empty square, and a rook on its corner for every castling
      right still held. */
  ghost predicate WellFormed(b: Board)
  {
    && Disjoint(b.pieces)
    && (b.enPassantSquare == -1 || (0 <= b.enPassantSquare < 64 && b.enPassantSquare !in AllPieces(b.pieces)))
    && (b.whiteCanCastleKingside ==> 7 in b.pieces.whiteRook)
    && (b.whiteCanCastleQueenside ==> 0 in b.pieces.whiteRook)
    && (b.blackCanCastleKingside ==> 63 in b.pieces.blackRook)
    && (b.blackCanCastleQueenside ==> 56 in b.pieces.blackRook)
  }

  /** A castling right still held also has its king on e1 (e8): the squares the castling
      generator takes for granted without looking. */
  ghost predicate KingsHome(b: Board)
  {
    && (b.whiteCanCastleKingside || b.whiteCanCastleQueenside ==> 4 in b.pieces.whiteKing)
    && (b.blackCanCastleKingside || b.blackCanCastleQueenside ==> 60 in b.pieces.blackKing)
  }

  /** A square some held castling right relies on: its king's home or its rook's corner. */
  predicate Anchor(b: Board, sq: int)
  {
    || ((b.whiteCanCastleKingside || b.whiteCanCastleQueenside) && sq == 4)
    || (b.whiteCanCastleKingside && sq == 7)
    || (b.whiteCanCastleQueenside && sq == 0)
    || ((b.blackCanCastleKingside || b.blackCanCastleQueenside) && sq == 60)
    || (b.blackCanCastleKingside && sq == 63)
    || (b.blackCanCastleQueenside && sq == 56)
  }

  /** The move captures on a square a held right relies on. makeMove then removes that
      piece but keeps the right, which the source does not guard against. */
  predicate TakesAnchor(b: Board, m: Move)
  {
    IsCapture(m) && Anchor(b, CaptureSquare(b.isWhiteTurn, m))
  }
}
