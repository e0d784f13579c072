/** Evaluator.java's loops, run on the bitboards of a Position. No method here changes
    anything; each is proved to compute the function of module Scoring that states what
    it means, so the score depends on the twelve bitboards alone. */
module Evaluator {
  import opened Bitboards
  import opened JavaLib
  import opened Moves
  import opened Boards
  import opened MoveRules
  import opened Positions
  import opened Scoring

  /** evaluate: the additive score from white's point of view. Side to move, castling
      rights, en-passant square and halfmove clock play no part. */
  method Evaluate(position: Position) returns (score: int)
    ensures score == Evaluation(position.Placement())
    ensures -EVAL_LIMIT < score < EVAL_LIMIT
  {
    score := EvaluateMaterial(position);

    var pawnStructure := EvaluatePawnStructure(position);
    score := score + pawnStructure;
    var mobility := EvaluateMobility(position);
    score := score + mobility;
    var queenActivity := EvaluateQueenActivity(position);
    score := score + queenActivity;
    score := score + KingSafety(position.Placement());

    var gameStage := DetectGameStage(position.Placement());
    if gameStage == Endgame {
      var passedPawns := EvaluatePassedPawns(position);
      score := score + passedPawns;
    }
  }

  /** evaluate's material count: the piece values of white's pawns, knights, bishops,
      rooks and queens less black's. */
  method EvaluateMaterial(position: Position) returns (score: int)
    ensures score == Material(position.Placement())
  {
    score := 0;

    score := score + BitCount(position.whitePawn) * PAWN_VALUE;
    score := score + BitCount(position.whiteKnight) * KNIGHT_VALUE;
    score := score + BitCount(position.whiteBishop) * BISHOP_VALUE;
    score := score + BitCount(position.whiteRook) * ROOK_VALUE;
    score := score + BitCount(position.whiteQueen) * QUEEN_VALUE;

    score := score - BitCount(position.blackPawn) * PAWN_VALUE;
    score := score - BitCount(position.blackKnight) * KNIGHT_VALUE;
    score := score - BitCount(position.blackBishop) * BISHOP_VALUE;
    score := score - BitCount(position.blackRook) * ROOK_VALUE;
    score := score - BitCount(position.blackQueen) * QUEEN_VALUE;
  }

  /** evaluatePassedPawns: each white pawn, lowest square first, adds its bonus when it
      is passed; each black pawn subtracts its bonus likewise. */
  method EvaluatePassedPawns(position: Position) returns (score: int)
    ensures score == PassedPawns(position.Placement())
  {
    ghost var p := position.Placement();
    score := 0;

    var whitePawns := position.whitePawn;
    while whitePawns != {}
      invariant score + PassedSum(p, Squares(whitePawns), true) == PassedSum(p, Squares(p.whitePawn), true)
      decreases |whitePawns|
    {
      var square := NumberOfTrailingZeros(whitePawns);
      PassedSumStep(p, whitePawns, true);
      whitePawns := whitePawns - {square};
      var passed := IsPassedPawn(position, square, true);
      if passed {
        var rank := square / 8;
        var distanceToPromotion := 7 - rank;
        var bonus := 200 / (distanceToPromotion + 1);
        PassedBonusIs(square, true, distanceToPromotion);
        score := score + bonus;
      }
    }

    ghost var whiteScore := score;
    var blackPawns := position.blackPawn;
    while blackPawns != {}
      invariant score - PassedSum(p, Squares(blackPawns), false) == whiteScore - PassedSum(p, Squares(p.blackPawn), false)
      decreases |blackPawns|
    {
      var square := NumberOfTrailingZeros(blackPawns);
      PassedSumStep(p, blackPawns, false);
      blackPawns := blackPawns - {square};
      var passed := IsPassedPawn(position, square, false);
      if passed {
        var rank := square / 8;
        var distanceToPromotion := rank;
        var bonus := 200 / (distanceToPromotion + 1);
        PassedBonusIs(square, false, distanceToPromotion);
        score := score - bonus;
      }
    }
  }

  /** isPassedPawn: scans the pawn's file and its neighbours, rank by rank ahead of the
      pawn, for an enemy pawn. */
  method IsPassedPawn(position: Position, square: int, isWhite: bool) returns (passed: bool)
    requires 0 <= square < 64
    ensures passed == IsPassed(position.Placement(), square, isWhite)
  {
    ghost var p := position.Placement();
    ghost var enemy, lo, hi := Pawns(p, !isWhite), AheadFrom(square, isWhite), AheadTo(square, isWhite);
    var file := square % 8;
    var rank := square / 8;
    var f := Max(0, file - 1);
    while f <= Min(7, file + 1)
      invariant Max(0, file - 1) <= f <= Min(7, file + 1) + 1
      invariant FilesClear(enemy, Max(0, file - 1), f, lo, hi)
      decreases 8 - f
    {
      if isWhite {
        assert enemy == position.blackPawn && lo == rank && hi == 8;
        var r := rank + 1;
        while r < 8
          invariant rank + 1 <= r <= 8
          invariant FileClear(enemy, f, rank, r)
        {
          var checkSquare := r * 8 + f;
          if Bit(checkSquare) in position.blackPawn {
            assert checkSquare in enemy && lo < r < hi;
            assert !FileClear(enemy, f, lo, hi);
            PassedIffFilesClear(p, square, isWhite);
            return false;
          }
          r := r + 1;
        }
      } else {
        assert enemy == position.whitePawn && lo == -1 && hi == rank;
        var r := rank - 1;
        while r >= 0
          invariant -1 <= r <= rank - 1
          invariant FileClear(enemy, f, r, rank)
        {
          var checkSquare := r * 8 + f;
          if Bit(checkSquare) in position.whitePawn {
            assert checkSquare in enemy && lo < r < hi;
            assert !FileClear(enemy, f, lo, hi);
            PassedIffFilesClear(p, square, isWhite);
            return false;
          }
          r := r - 1;
        }
      }
      f := f + 1;
    }
    PassedIffFilesClear(p, square, isWhite);
    return true;
  }

  /** evaluatePawnStructure: the doubled-pawn terms of both colours. */
  method EvaluatePawnStructure(position: Position) returns (score: int)
    ensures score == PawnStructure(position.Placement())
  {
    score := 0;
    var white := EvaluateDoubledPawns(position.whitePawn, true);
    score := score + white;
    var black := EvaluateDoubledPawns(position.blackPawn, false);
    score := score + black;
  }

  /** evaluateDoubledPawns: file by file, 50 for every pawn beyond the first; the
      penalty is returned as it is for white and negated for black. */
  method EvaluateDoubledPawns(pawns: Bitboard, isWhite: bool) returns (score: int)
    ensures score == DoubledPawns(pawns, isWhite)
  {
    var penalty: int := 0;
    for file := 0 to 8
      invariant penalty == -(DoubledCost(pawns, file) as int)
    {
      var fileMask := FileMask(file);
      var pawnsInFile := pawns * fileMask;
      var count := BitCount(pawnsInFile);
      if count > 1 {
        penalty := penalty - (count - 1) * 50;
      }
    }
    score := if isWhite then penalty else -penalty;
  }

  /** evaluateMobility: white's knight mobility less black's. */
  method EvaluateMobility(position: Position) returns (score: int)
    ensures score == Mobility(position.Placement())
  {
    score := 0;
    var white := EvaluatePieceMobility(position, true);
    score := score + white;
    var black := EvaluatePieceMobility(position, false);
    score := score - black;
  }

  /** evaluatePieceMobility: 5 for every square countKnightMoves finds, knight by
      knight; no other piece kind is counted. */
  method EvaluatePieceMobility(position: Position, isWhite: bool) returns (score: int)
    ensures score == PieceMobility(position.Placement(), isWhite)
  {
    ghost var p := position.Placement();
    score := 0;
    var knights: Bitboard := if isWhite then position.whiteKnight else position.blackKnight;
    while knights != {}
      invariant score + KnightMobilitySum(Squares(knights)) == PieceMobility(p, isWhite)
      decreases |knights|
    {
      var square := NumberOfTrailingZeros(knights);
      ghost var all := knights;
      knights := knights - {square};
      assert Squares(all) == [square] + Squares(knights);
      var mobility := CountKnightMoves(square, position, isWhite);
      score := score + mobility * 5;
    }
  }

  /** countKnightMoves: the offsets whose target is on the board within two files and
      two ranks. Whatever stands on the target, and whichever side is asked, the count is
      the size of the knight's attack-table entry. */
  method CountKnightMoves(square: int, position: Position, isWhite: bool) returns (count: int)
    requires 0 <= square < 64
    ensures count == KnightCount(square, 8)
    ensures 0 <= count <= 8
    ensures count == BitCount(KnightTargets(square))
  {
    count := 0;
    var knightMoves := KnightOffsets;
    for i := 0 to |knightMoves|
      invariant count == KnightCount(square, i)
    {
      var offset := knightMoves[i];
      var target := square + offset;
      if target >= 0 && target < 64 {
        if Abs((target % 8) - (square % 8)) <= 2 && Abs((target / 8) - (square / 8)) <= 2 {
          count := count + 1;
        }
      }
    }
    KnightCountIsTableSize(square);
  }

  /** evaluateQueenActivity: for each white queen, lowest square first, the
      centralisation bonus plus 20 per attacked piece; the same subtracted for each
      black queen. */
  method EvaluateQueenActivity(position: Position) returns (score: int)
    ensures score == QueenActivity(position.Placement())
  {
    ghost var p := position.Placement();
    score := 0;

    var whiteQueens := position.whiteQueen;
    while whiteQueens != {}
      invariant score + QueenSum(p, Squares(whiteQueens), true) == QueenSum(p, Squares(p.whiteQueen), true)
      decreases |whiteQueens|
    {
      var square := NumberOfTrailingZeros(whiteQueens);
      QueenSumStep(p, whiteQueens, true);
      whiteQueens := whiteQueens - {square};
      var distanceFromCenter := DistanceFromCenter(square);
      score := score + (5 - distanceFromCenter) * 10;
      var attacks := CountQueenAttacks(position, square, true);
      score := score + attacks * 20;
    }

    ghost var whiteScore := score;
    var blackQueens := position.blackQueen;
    while blackQueens != {}
      invariant score - QueenSum(p, Squares(blackQueens), false) == whiteScore - QueenSum(p, Squares(p.blackQueen), false)
      decreases |blackQueens|
    {
      var square := NumberOfTrailingZeros(blackQueens);
      QueenSumStep(p, blackQueens, false);
      blackQueens := blackQueens - {square};
      var distanceFromCenter := DistanceFromCenter(square);
      score := score - (5 - distanceFromCenter) * 10;
      var attacks := CountQueenAttacks(position, square, false);
      score := score - attacks * 20;
    }
  }

  /** countQueenAttacks: along each of the eight directions, walk until the edge or the
      first piece, and count that piece when it belongs to the other side (lower case
      for a white queen, upper case for a black one; the edge marker '.' is neither). */
  method CountQueenAttacks(position: Position, square: int, isWhite: bool) returns (count: int)
    requires 0 <= square < 64
    ensures count == QueenAttacks(position.Placement(), square, isWhite, 8)
    ensures 0 <= count <= 8
  {
    var p := position.Placement();
    count := 0;
    var directions := QueenRays;
    var file := square % 8;
    var rank := square / 8;
    for i := 0 to |directions|
      invariant count == QueenAttacks(p, square, isWhite, i)
    {
      var (df, dr) := directions[i];
      QueenAttacksStep(p, square, isWhite, i);
      var piece := FirstPieceOnRay(p, file + df, rank + dr, df, dr);
      if IsEnemy(piece, isWhite) {
        count := count + 1;
      }
    }
  }

  /** countQueenAttacks' inner walk: step from (f, r) in direction (df, dr) until the
      edge of the board or the first piece, which is returned ('.' at the edge). */
  method FirstPieceOnRay(p: Pieces, f0: int, r0: int, df: int, dr: int) returns (piece: char)
    requires IsDirection(df, dr)
    ensures piece == RayHit(p, f0, r0, df, dr)
  {
    var f, r := f0, r0;
    while f >= 0 && f < 8 && r >= 0 && r < 8
      invariant RayHit(p, f, r, df, dr) == RayHit(p, f0, r0, df, dr)
      decreases Remaining(f, df) + Remaining(r, dr)
    {
      var targetSquare := r * 8 + f;
      piece := GetBitboardPiece(p, targetSquare);
      if piece != EMPTY {
        return;
      }
      f := f + df;
      r := r + dr;
    }
    return EMPTY;
  }
}
