/** Evaluator.java as functions of the twelve bitboards: the game stage, material,
    doubled pawns, knight mobility, queen activity, king safety and, in the endgame
    only, passed pawns, added into one score (positive favours white). The methods
    of module Evaluator compute the same values with the loops of the source. */
module Scoring {
  import opened Bitboards
  import opened JavaLib
  import opened Moves
  import opened Boards
  import opened MoveRules

  const PAWN_VALUE := 100
  const KNIGHT_VALUE := 320
  const BISHOP_VALUE := 330
  const ROOK_VALUE := 500
  const QUEEN_VALUE := 900

  /** No score of Evaluation reaches this magnitude. */
  const EVAL_LIMIT := 1_000_000

  function Max(a: int, b: int): int { if a >= b then a else b }

  function Min(a: int, b: int): int { if a <= b then a else b }

  // ---------------------------------------------------------------------------
  // Game stage

  /** OPENING, MIDDLEGAME and ENDGAME of detectGameStage. */
  datatype GameStage = Opening | Middlegame | Endgame

  /** The knights, bishops, rooks and queens of both sides; pawns and kings do not count. */
  function PieceCount(p: Pieces): nat
  {
    BitCount(p.whiteKnight) + BitCount(p.whiteBishop) + BitCount(p.whiteRook) + BitCount(p.whiteQueen) +
    BitCount(p.blackKnight) + BitCount(p.blackBishop) + BitCount(p.blackRook) + BitCount(p.blackQueen)
  }

  /** detectGameStage: more than 14 pieces is the opening, 9 to 14 the middlegame,
      8 or fewer the endgame. */
  function DetectGameStage(p: Pieces): (stage: GameStage)
    ensures stage == Opening <==> PieceCount(p) > 14
    ensures stage == Middlegame <==> 9 <= PieceCount(p) <= 14
    ensures stage == Endgame <==> PieceCount(p) <= 8
  {
    var total := PieceCount(p);
    if total > 14 then Opening else if total > 8 then Middlegame else Endgame
  }

  function StageOrder(s: GameStage): int
  {
    match s
    case Opening => 0
    case Middlegame => 1
    case Endgame => 2
  }

  /** Losing pieces never takes the game back to an earlier stage. */
  lemma StageNeverGoesBack(p: Pieces, q: Pieces)
    requires PieceCount(q) <= PieceCount(p)
    ensures StageOrder(DetectGameStage(p)) <= StageOrder(DetectGameStage(q))
  {
  }

  // ---------------------------------------------------------------------------
  // Material

  /** One side's material: pawns 100, knights 320, bishops 330, rooks 500, queens 900;
      the king is not counted. */
  function SideMaterial(p: Pieces, white: bool): (m: nat)
    ensures m <= 64 * 2150
    ensures m == 0 <==> Pawns(p, white) == {} && Knights(p, white) == {} && Bishops(p, white) == {} &&
                        Rooks(p, white) == {} && Queens(p, white) == {}
  {
    BitCount(Pawns(p, white)) * PAWN_VALUE + BitCount(Knights(p, white)) * KNIGHT_VALUE +
    BitCount(Bishops(p, white)) * BISHOP_VALUE + BitCount(Rooks(p, white)) * ROOK_VALUE +
    BitCount(Queens(p, white)) * QUEEN_VALUE
  }

  /** The material term of evaluate: white's material less black's. */
  function Material(p: Pieces): int
  {
    SideMaterial(p, true) - SideMaterial(p, false)
  }

  /** The position with the colours of all pieces exchanged (squares unchanged). */
  function SwapColours(p: Pieces): Pieces
  {
    Pieces(p.blackPawn, p.blackKing, p.blackQueen, p.blackKnight, p.blackBishop, p.blackRook,
           p.whitePawn, p.whiteKing, p.whiteQueen, p.whiteKnight, p.whiteBishop, p.whiteRook)
  }

  /** Material and the doubled-pawn term are colour-symmetric: exchanging the colours
      negates them. */
  lemma MaterialAndPawnsAntisymmetric(p: Pieces)
    ensures Material(SwapColours(p)) == -Material(p)
    ensures PawnStructure(SwapColours(p)) == -PawnStructure(p)
  {
  }

  // ---------------------------------------------------------------------------
  // Doubled pawns

  function PawnsOnFile(pawns: Bitboard, file: int): nat
    requires 0 <= file < 8
  {
    BitCount(pawns * FileMask(file))
  }

  /** The cost of one file: 50 for every pawn beyond the first. */
  function FilePenalty(pawns: Bitboard, file: int): (cost: nat)
    requires 0 <= file < 8
    ensures cost <= 3150
    ensures cost == 0 <==> PawnsOnFile(pawns, file) <= 1
  {
    var count := PawnsOnFile(pawns, file);
    if count > 1 then (count - 1) * 50 else 0
  }

  /** The cost of files 0 .. n-1, added in the loop's order. */
  function DoubledCost(pawns: Bitboard, n: int): (cost: nat)
    requires 0 <= n <= 8
    ensures cost <= 3150 * n
  {
    if n == 0 then 0 else DoubledCost(pawns, n - 1) + FilePenalty(pawns, n - 1)
  }

  /** evaluateDoubledPawns: the cost of all eight files, negative for white and
      positive for black. */
  function DoubledPawns(pawns: Bitboard, white: bool): (score: int)
    ensures white ==> score <= 0
    ensures !white ==> score >= 0
  {
    if white then -(DoubledCost(pawns, 8) as int) else DoubledCost(pawns, 8)
  }

  /** The cost is zero exactly when no file among the first n holds two pawns. */
  lemma {:induction false} NoDoubledCost(pawns: Bitboard, n: int)
    requires 0 <= n <= 8
    ensures DoubledCost(pawns, n) == 0 <==> forall f :: 0 <= f < n ==> PawnsOnFile(pawns, f) <= 1
  {
    if n > 0 {
      NoDoubledCost(pawns, n - 1);
      var last := PawnsOnFile(pawns, n - 1);
      assert DoubledCost(pawns, n) == 0 <==> DoubledCost(pawns, n - 1) == 0 && last <= 1;
      assert (forall f :: 0 <= f < n ==> PawnsOnFile(pawns, f) <= 1) <==>
             (forall f :: 0 <= f < n - 1 ==> PawnsOnFile(pawns, f) <= 1) && last <= 1;
    }
  }

  /** The doubled-pawn term vanishes exactly when no file holds two pawns of that colour. */
  lemma DoubledPawnsZero(pawns: Bitboard, white: bool)
    ensures DoubledPawns(pawns, white) == 0 <==> forall f :: 0 <= f < 8 ==> PawnsOnFile(pawns, f) <= 1
  {
    NoDoubledCost(pawns, 8);
  }

  /** evaluatePawnStructure: white's doubled-pawn term plus black's. */
  function PawnStructure(p: Pieces): int
  {
    DoubledPawns(p.whitePawn, true) + DoubledPawns(p.blackPawn, false)
  }

  // ---------------------------------------------------------------------------
  // Knight mobility

  /** The offsets countKnightMoves tries, in its order. */
  const KnightOffsets: seq<int> := [-17, -15, -10, -6, 6, 10, 15, 17]

  /** countKnightMoves' test of one offset: the target is on the board and at most two
      files and two ranks away. */
  predicate CountsTarget(square: int, offset: int)
  {
    var target := square + offset;
    0 <= target < 64 && Abs(target % 8 - square % 8) <= 2 && Abs(target / 8 - square / 8) <= 2
  }

  /** The offsets among the first n that pass the test. */
  function KnightCount(square: int, n: int): (count: nat)
    requires 0 <= n <= 8
    ensures count <= n
  {
    if n == 0 then 0 else KnightCount(square, n - 1) + (if CountsTarget(square, KnightOffsets[n - 1]) then 1 else 0)
  }

  /** The targets of the offsets among the first n that pass the test. */
  function CountedTargets(square: int, n: int): set<int>
    requires 0 <= n <= 8
  {
    if n == 0 then {}
    else
      var off := KnightOffsets[n - 1];
      CountedTargets(square, n - 1) + (if CountsTarget(square, off) then {square + off} else {})
  }

  /** The test of countKnightMoves, though described in the source as rough, admits an
      offset exactly when its target is a knight's jump on the board: no file
      wrap-around gets through. */
  lemma KnightOffsetExact(square: int, k: int)
    requires 0 <= square < 64 && 0 <= k < 8
    ensures CountsTarget(square, KnightOffsets[k]) <==>
      0 <= square + KnightOffsets[k] < 64 && KnightJump(square, square + KnightOffsets[k])
  {
    var t := square + KnightOffsets[k];
    var r1, f1 := square / 8, square % 8;
    assert square == 8 * r1 + f1;
    if 0 <= t < 64 {
      var r2, f2 := t / 8, t % 8;
      assert t == 8 * r2 + f2;
    }
  }

  /** Every knight's jump from the square is one of the eight offsets. */
  lemma JumpIsOffset(square: int, t: int)
    requires 0 <= square < 64 && 0 <= t < 64 && KnightJump(square, t)
    ensures exists k :: 0 <= k < 8 && t == square + KnightOffsets[k]
  {
    var r1, f1 := square / 8, square % 8;
    var r2, f2 := t / 8, t % 8;
    assert square == 8 * r1 + f1 && t == 8 * r2 + f2;
    var d := t - square;
    assert d == 8 * (r2 - r1) + (f2 - f1);
    assert d in KnightOffsets;
    var k :| 0 <= k < 8 && KnightOffsets[k] == d;
  }

  /** The counted targets are the squares `square + offset` of the first n offsets that
      pass the test. */
  lemma {:induction false} CountedTargetsAre(square: int, n: int)
    requires 0 <= n <= 8
    ensures forall t :: t in CountedTargets(square, n) <==>
      t - square in KnightOffsets[..n] && CountsTarget(square, t - square)
  {
    if n > 0 {
      CountedTargetsAre(square, n - 1);
      assert KnightOffsets[..n] == KnightOffsets[..n - 1] + [KnightOffsets[n - 1]];
    }
  }

  /** The offsets increase, so each counted target is new: the count is the size of the
      set of counted targets. */
  lemma {:induction false} CountedTargetsSize(square: int, n: int)
    requires 0 <= n <= 8
    ensures |CountedTargets(square, n)| == KnightCount(square, n)
    ensures n > 0 ==> forall t :: t in CountedTargets(square, n) ==> t <= square + KnightOffsets[n - 1]
    ensures n == 0 ==> CountedTargets(square, n) == {}
  {
    if n > 0 {
      CountedTargetsSize(square, n - 1);
      assert n > 1 ==> KnightOffsets[n - 2] < KnightOffsets[n - 1];
    }
  }

  lemma CountedAreJumps(square: int, t: int)
    requires 0 <= square < 64 && t in CountedTargets(square, 8)
    ensures 0 <= t < 64 && KnightJump(square, t)
  {
    CountedTargetsAre(square, 8);
    assert KnightOffsets[..8] == KnightOffsets;
    var k :| 0 <= k < 8 && KnightOffsets[k] == t - square;
    KnightOffsetExact(square, k);
  }

  lemma JumpsAreCounted(square: int, t: int)
    requires 0 <= square < 64 && 0 <= t < 64 && KnightJump(square, t)
    ensures t in CountedTargets(square, 8)
  {
    JumpIsOffset(square, t);
    var k :| 0 <= k < 8 && t == square + KnightOffsets[k];
    KnightOffsetExact(square, k);
    CountedTargetsAre(square, 8);
    assert KnightOffsets[..8] == KnightOffsets;
    assert t - square in KnightOffsets[..8];
  }

  /** countKnightMoves counts exactly the squares of the generator's KNIGHT_ATTACKS
      entry for the square, whatever stands on them. */
  lemma KnightCountIsTableSize(square: int)
    requires 0 <= square < 64
    ensures KnightCount(square, 8) == BitCount(KnightTargets(square))
  {
    CountedTargetsSize(square, 8);
    var counted := CountedTargets(square, 8);
    var table := KnightTargets(square);
    forall t | t in counted ensures t in table {
      CountedAreJumps(square, t);
    }
    forall t: Square | t in table ensures t in counted {
      JumpsAreCounted(square, t);
    }
    assert counted == table;
  }

  /** evaluatePieceMobility: 5 for every counted target of every knight, in the order
      the loop visits the knights. */
  function KnightMobilitySum(squares: seq<Square>): (score: nat)
    ensures score <= 40 * |squares|
  {
    if |squares| == 0 then 0 else 5 * KnightCount(squares[0], 8) + KnightMobilitySum(squares[1..])
  }

  function PieceMobility(p: Pieces, white: bool): (score: nat)
    ensures score <= 40 * 64
  {
    assert BitCount(Knights(p, white)) <= 64;
    KnightMobilitySum(Squares(Knights(p, white)))
  }

  /** evaluateMobility: white's knight mobility less black's. */
  function Mobility(p: Pieces): int
  {
    PieceMobility(p, true) - PieceMobility(p, false)
  }

  // ---------------------------------------------------------------------------
  // Queen activity

  /** getBitboardPiece: the first bitboard, in the order P N B R Q K p n b r q k, that
      holds the square, or '.'. */
  function GetBitboardPiece(p: Pieces, square: int): (c: char)
    ensures c == EMPTY <==> !Occupied(p, Bit(square))
    ensures c != EMPTY ==> IsPieceLetter(c) && Bit(square) in Bits(p, c)
  {
    var sq := Bit(square);
    if sq in p.whitePawn then 'P'
    else if sq in p.whiteKnight then 'N'
    else if sq in p.whiteBishop then 'B'
    else if sq in p.whiteRook then 'R'
    else if sq in p.whiteQueen then 'Q'
    else if sq in p.whiteKing then 'K'
    else if sq in p.blackPawn then 'p'
    else if sq in p.blackKnight then 'n'
    else if sq in p.blackBishop then 'b'
    else if sq in p.blackRook then 'r'
    else if sq in p.blackQueen then 'q'
    else if sq in p.blackKing then 'k'
    else '.'
  }

  /** Its order differs from getPieceAt's, but on disjoint bitboards both name the same
      piece. */
  lemma BitboardPieceAgrees(p: Pieces, square: int)
    requires Disjoint(p)
    ensures GetBitboardPiece(p, square) == PieceAt(p, square)
  {
    var c := GetBitboardPiece(p, square);
    assert PieceAt(p, Bit(square)) == PieceAt(p, square);
    if c != EMPTY {
      assert Bit(square) in Bits(p, c);
    }
  }

  /** The centralisation bonus: 10 for every step by which the Chebyshev distance to d4
      falls short of 5. */
  function Centralization(square: int): (bonus: int)
    requires 0 <= square < 64
    ensures 10 <= bonus <= 50
  {
    (5 - DistanceFromCenter(square)) * 10
  }

  /** The Chebyshev distance from d4: the larger of the file and rank distances. */
  function DistanceFromCenter(square: int): (d: int)
    requires 0 <= square < 64
    ensures 0 <= d <= 4
  {
    var file, rank := square % 8, square / 8;
    Max(Abs(file - 3), Abs(rank - 3))
  }

  /** countQueenAttacks' eight (file, rank) directions, in its order. */
  const QueenRays: seq<(int, int)> := [(-1, 0), (1, 0), (0, -1), (0, 1), (-1, -1), (-1, 1), (1, -1), (1, 1)]

  predicate IsDirection(df: int, dr: int)
  {
    -1 <= df <= 1 && -1 <= dr <= 1 && (df != 0 || dr != 0)
  }

  /** How many more steps of `d` a coordinate `x` can take and stay on the board. */
  function Remaining(x: int, d: int): nat
  {
    if d > 0 then (if x < 8 then 8 - x else 0)
    else if d < 0 then (if x >= 0 then x + 1 else 0)
    else 0
  }

  /** The piece a ray walk starting on (f, r) stops at, or '.' when it leaves the board
      first. */
  function RayHit(p: Pieces, f: int, r: int, df: int, dr: int): (c: char)
    requires IsDirection(df, dr)
    ensures c == EMPTY || IsPieceLetter(c)
    decreases Remaining(f, df) + Remaining(r, dr)
  {
    if !(0 <= f < 8 && 0 <= r < 8) then EMPTY
    else
      var piece := GetBitboardPiece(p, r * 8 + f);
      if piece != EMPTY then piece else RayHit(p, f + df, r + dr, df, dr)
  }

  /** An enemy of the queen's side, by case: lower case for white, upper case for black. */
  predicate IsEnemy(c: char, white: bool)
  {
    if white then IsLowerCase(c) else IsUpperCase(c)
  }

  /** On the twelve piece letters the case test picks out exactly the other colour. */
  lemma EnemyIsOtherColour(c: char, white: bool)
    requires IsPieceLetter(c)
    ensures IsEnemy(c, white) <==> if white then IsBlackLetter(c) else IsWhiteLetter(c)
  {
  }

  /** The first n directions whose ray, starting next to the queen, first meets an enemy. */
  function QueenAttacks(p: Pieces, square: int, white: bool, n: int): (count: nat)
    requires 0 <= square < 64 && 0 <= n <= 8
    ensures count <= n
  {
    if n == 0 then 0
    else
      var (df, dr) := QueenRays[n - 1];
      QueenAttacks(p, square, white, n - 1) +
      (if IsEnemy(RayHit(p, square % 8 + df, square / 8 + dr, df, dr), white) then 1 else 0)
  }

  /** The loop's step: one more direction adds one when its ray first meets an enemy. */
  lemma QueenAttacksStep(p: Pieces, square: int, white: bool, i: int)
    requires 0 <= square < 64 && 0 <= i < 8
    ensures IsDirection(QueenRays[i].0, QueenRays[i].1)
    ensures var (df, dr) := QueenRays[i];
      QueenAttacks(p, square, white, i + 1) ==
        QueenAttacks(p, square, white, i) + (if IsEnemy(RayHit(p, square % 8 + df, square / 8 + dr, df, dr), white) then 1 else 0)
  {
  }

  /** One queen's contribution: centralisation plus 20 per attacked enemy piece. */
  function QueenScore(p: Pieces, square: int, white: bool): (score: int)
    requires 0 <= square < 64
    ensures 10 <= score <= 210
  {
    Centralization(square) + QueenAttacks(p, square, white, 8) * 20
  }

  function QueenSum(p: Pieces, squares: seq<Square>, white: bool): (score: int)
    ensures 10 * |squares| <= score <= 210 * |squares|
  {
    if |squares| == 0 then 0 else QueenScore(p, squares[0], white) + QueenSum(p, squares[1..], white)
  }

  /** The loop's step: the lowest queen's score, then the rest. */
  lemma QueenSumStep(p: Pieces, queens: Bitboard, white: bool)
    requires queens != {}
    ensures var square := NumberOfTrailingZeros(queens);
      QueenSum(p, Squares(queens), white) ==
        Centralization(square) + QueenAttacks(p, square, white, 8) * 20 + QueenSum(p, Squares(queens - {square}), white)
  {
    var square := NumberOfTrailingZeros(queens);
    assert Squares(queens) == [square] + Squares(queens - {square});
  }

  /** evaluateQueenActivity: the white queens' scores less the black queens'. */
  function QueenActivity(p: Pieces): (score: int)
    ensures -210 * 64 <= score <= 210 * 64
  {
    assert BitCount(p.whiteQueen) <= 64 && BitCount(p.blackQueen) <= 64;
    QueenSum(p, Squares(p.whiteQueen), true) - QueenSum(p, Squares(p.blackQueen), false)
  }

  // ---------------------------------------------------------------------------
  // King safety

  /** White's king: -200 off the first rank, +100 on g1 or c1. */
  function WhiteKingSafety(p: Pieces): int
  {
    if p.whiteKing == {} then 0
    else
      var kingSquare := NumberOfTrailingZeros(p.whiteKing);
      (if kingSquare / 8 != 0 then -200 else 0) + (if kingSquare == 6 || kingSquare == 2 then 100 else 0)
  }

  /** Black's king: -200 off the eighth rank (the same sign as white's), -100 on g8 or c8. */
  function BlackKingSafety(p: Pieces): int
  {
    if p.blackKing == {} then 0
    else
      var kingSquare := NumberOfTrailingZeros(p.blackKing);
      (if kingSquare / 8 != 7 then -200 else 0) + (if kingSquare == 62 || kingSquare == 58 then -100 else 0)
  }

  /** evaluateKingSafety: nothing in the endgame; otherwise both kings' terms. The term
      lies in [-400, 100], not in a range symmetric about 0. */
  function KingSafety(p: Pieces): (score: int)
    ensures DetectGameStage(p) == Endgame ==> score == 0
    ensures -400 <= score <= 100
  {
    if DetectGameStage(p) == Endgame then 0 else WhiteKingSafety(p) + BlackKingSafety(p)
  }

  /** Two exposed kings do not cancel: outside the endgame each king off its back rank
      costs 200 from white's point of view, so the term is -400 where a colour-symmetric
      evaluation would give 0. */
  lemma ExposedKingsBothCount(p: Pieces)
    requires DetectGameStage(p) != Endgame
    requires p.whiteKing != {} && NumberOfTrailingZeros(p.whiteKing) / 8 != 0
    requires p.blackKing != {} && NumberOfTrailingZeros(p.blackKing) / 8 != 7
    ensures KingSafety(p) == -400
  {
  }

  // ---------------------------------------------------------------------------
  // Passed pawns

  /** An enemy pawn stands on a rank ahead of the pawn, in the pawn's direction of travel. */
  predicate Ahead(enemy: int, square: int, white: bool)
  {
    if white then enemy / 8 > square / 8 else enemy / 8 < square / 8
  }

  /** isPassedPawn: no enemy pawn on the pawn's file or an adjacent file on any rank
      ahead of it. */
  predicate IsPassed(p: Pieces, square: int, white: bool)
  {
    forall e :: e in Pawns(p, !white) ==> !(FileDistance(e, square) <= 1 && Ahead(e, square, white))
  }

  /** No pawn of `pawns` on file f at a rank strictly between lo and hi. */
  predicate FileClear(pawns: Bitboard, f: int, lo: int, hi: int)
  {
    forall r :: lo < r < hi ==> r * 8 + f !in pawns
  }

  /** The same for every file from `fromFile` up to, not including, `toFile`. */
  predicate FilesClear(pawns: Bitboard, fromFile: int, toFile: int, lo: int, hi: int)
  {
    forall g :: fromFile <= g < toFile ==> FileClear(pawns, g, lo, hi)
  }

  /** The ranks ahead of a pawn, as bounds exclusive at both ends. */
  function AheadFrom(square: int, white: bool): int { if white then square / 8 else -1 }
  function AheadTo(square: int, white: bool): int { if white then 8 else square / 8 }

  /** The pawn is passed exactly when its own file and each neighbouring file are clear
      of enemy pawns on every rank ahead of it. */
  lemma {:induction false} PassedIffFilesClear(p: Pieces, square: int, white: bool)
    requires 0 <= square < 64
    ensures IsPassed(p, square, white) <==>
      FilesClear(Pawns(p, !white), Max(0, square % 8 - 1), Min(7, square % 8 + 1) + 1,
        AheadFrom(square, white), AheadTo(square, white))
  {
    var enemy, lo, hi := Pawns(p, !white), AheadFrom(square, white), AheadTo(square, white);
    var file := square % 8;
    if IsPassed(p, square, white) {
      forall g | Max(0, file - 1) <= g < Min(7, file + 1) + 1
        ensures FileClear(enemy, g, lo, hi)
      {
        forall r | lo < r < hi
          ensures r * 8 + g !in enemy
        {
          if r * 8 + g in enemy {
            SquareParts(r, g);
            assert FileDistance(r * 8 + g, square) <= 1 && Ahead(r * 8 + g, square, white);
          }
        }
      }
    }
    if FilesClear(enemy, Max(0, file - 1), Min(7, file + 1) + 1, lo, hi) {
      forall e | e in enemy
        ensures !(FileDistance(e, square) <= 1 && Ahead(e, square, white))
      {
        var g := e % 8;
        if Max(0, file - 1) <= g < Min(7, file + 1) + 1 {
          ClearFileExcludes(enemy, g, lo, hi, e);
        }
      }
    }
  }

  /** A pawn on a clear file stands outside the clear ranks. */
  lemma ClearFileExcludes(pawns: Bitboard, f: int, lo: int, hi: int, sq: int)
    requires FileClear(pawns, f, lo, hi) && sq in pawns && sq % 8 == f
    ensures !(lo < sq / 8 < hi)
  {
    assert sq == sq / 8 * 8 + f;
  }

  /** 200 / (distance to promotion + 1): 200 one step from promotion down to 25 on
      the far back rank. */
  function PassedBonus(square: int, white: bool): (bonus: int)
    requires 0 <= square < 64
    ensures 25 <= bonus <= 200
  {
    var rank := square / 8;
    var distanceToPromotion := if white then 7 - rank else rank;
    200 / (distanceToPromotion + 1)
  }

  /** The bonus as the loop computes it, rank first. */
  lemma PassedBonusIs(square: int, white: bool, distanceToPromotion: int)
    requires 0 <= square < 64
    requires distanceToPromotion == if white then 7 - square / 8 else square / 8
    ensures PassedBonus(square, white) == 200 / (distanceToPromotion + 1)
  {
  }

  function PassedSum(p: Pieces, squares: seq<Square>, white: bool): (score: nat)
    ensures score <= 200 * |squares|
  {
    if |squares| == 0 then 0
    else
      var bonus := if IsPassed(p, squares[0], white) then PassedBonus(squares[0], white) else 0;
      bonus + PassedSum(p, squares[1..], white)
  }

  /** The loop's step: the lowest pawn's bonus when it is passed, then the rest. */
  lemma PassedSumStep(p: Pieces, pawns: Bitboard, white: bool)
    requires pawns != {}
    ensures var square := NumberOfTrailingZeros(pawns);
      PassedSum(p, Squares(pawns), white) ==
        (if IsPassed(p, square, white) then PassedBonus(square, white) else 0) +
        PassedSum(p, Squares(pawns - {square}), white)
  {
    var square := NumberOfTrailingZeros(pawns);
    assert Squares(pawns) == [square] + Squares(pawns - {square});
  }

  /** evaluatePassedPawns: the bonuses of white's passed pawns less black's. */
  function PassedPawns(p: Pieces): (score: int)
    ensures -200 * 64 <= score <= 200 * 64
  {
    assert BitCount(p.whitePawn) <= 64 && BitCount(p.blackPawn) <= 64;
    PassedSum(p, Squares(p.whitePawn), true) - PassedSum(p, Squares(p.blackPawn), false)
  }

  // ---------------------------------------------------------------------------
  // The whole score

  /** evaluate: material, pawn structure, mobility, queen activity and king safety, plus
      the passed-pawn term in the endgame only. It reads nothing but the twelve
      bitboards. */
  function Evaluation(p: Pieces): (score: int)
    ensures -EVAL_LIMIT < score < EVAL_LIMIT
  {
    var score := Material(p) + PawnStructure(p) + Mobility(p) + QueenActivity(p) + KingSafety(p);
    if DetectGameStage(p) == Endgame then score + PassedPawns(p) else score
  }

  /** The passed-pawn term only ever enters in the endgame. */
  lemma PassedPawnsOnlyInEndgame(p: Pieces)
    ensures DetectGameStage(p) != Endgame ==>
      Evaluation(p) == Material(p) + PawnStructure(p) + Mobility(p) + QueenActivity(p) + KingSafety(p)
    ensures DetectGameStage(p) == Endgame ==>
      Evaluation(p) == Material(p) + PawnStructure(p) + Mobility(p) + QueenActivity(p) + PassedPawns(p)
  {
  }
}
