/** What the move lists of MoveRules promise: exact attack tables, no landing on a
    friendly piece, the pawn, ray and castling conditions, and that on a well-formed
    board every generated move is undone exactly by unmakeMove, so the legal-move filter
    leaves the board as it found it. */
module MoveLemmas {
  import opened Bitboards
  import opened JavaLib
  import opened Moves
  import opened Boards
  import opened MoveRules

  // ---------------------------------------------------------------------------
  // Attack tables

  lemma {:induction false} StepUnionReaches(square: int, steps: seq<Step>, to: int)
    ensures to in StepUnion(square, steps) <==> Reaches(square, steps, to)
    decreases |steps|
  {
    if |steps| > 0 {
      var init := steps[..|steps| - 1];
      StepUnionReaches(square, init, to);
      if Reaches(square, steps, to) {
        var k :| 0 <= k < |steps| && to in StepTarget(square, steps[k]);
        if k < |steps| - 1 {
          assert init[k] == steps[k];
        }
      }
      if Reaches(square, init, to) {
        var k :| 0 <= k < |init| && to in StepTarget(square, init[k]);
        assert steps[k] == init[k];
      }
    }
  }

  /** KNIGHT_ATTACKS[square] holds exactly the on-board squares a knight's L away. */
  lemma KnightTableExact(square: int)
    requires 0 <= square < 64
    ensures StepUnion(square, KnightSteps) == KnightTargets(square)
  {
    forall to | to in StepUnion(square, KnightSteps) ensures to in KnightTargets(square) {
      StepUnionReaches(square, KnightSteps, to);
      KnightStepsExact(square, to);
    }
    forall to | to in KnightTargets(square) ensures to in StepUnion(square, KnightSteps) {
      StepUnionReaches(square, KnightSteps, to);
      KnightStepsExact(square, to);
    }
  }

  /** KING_ATTACKS[square] holds exactly the on-board squares next to it. */
  lemma KingTableExact(square: int)
    requires 0 <= square < 64
    ensures StepUnion(square, KingSteps) == KingTargets(square)
  {
    forall to | to in StepUnion(square, KingSteps) ensures to in KingTargets(square) {
      StepUnionReaches(square, KingSteps, to);
      KingStepsExact(square, to);
    }
    forall to | to in KingTargets(square) ensures to in StepUnion(square, KingSteps) {
      StepUnionReaches(square, KingSteps, to);
      KingStepsExact(square, to);
    }
  }

  // ---------------------------------------------------------------------------
  // Knight and king moves

  lemma {:induction false} TargetMovesAre(p: Pieces, from: int, tos: seq<Square>, m: Move)
    ensures m in TargetMoves(p, from, tos) <==> m.to in tos && m == NewMove(from, m.to, PieceAt(p, m.to))
    decreases |tos|
  {
    if |tos| > 0 {
      TargetMovesAre(p, from, tos[1..], m);
      assert tos == [tos[0]] + tos[1..];
    }
  }

  /** A knight or king move starts on one of the pieces, goes to a table square that
      holds no friendly piece and records what stands there; and every such pair is
      generated. */
  lemma {:induction false} JumpMovesAre(p: Pieces, king: bool, froms: seq<Square>, friendly: Bitboard, m: Move)
    ensures m in JumpMoves(p, king, froms, friendly) <==>
      && m.from in froms
      && m.to in JumpTargets(king, m.from) && m.to !in friendly
      && m == NewMove(m.from, m.to, PieceAt(p, m.to))
    decreases |froms|
  {
    if |froms| > 0 {
      var from, tos := froms[0], Squares(JumpTargets(king, froms[0]) - friendly);
      assert m in JumpMoves(p, king, froms, friendly) <==>
        m in TargetMoves(p, from, tos) || m in JumpMoves(p, king, froms[1..], friendly);
      JumpMovesAre(p, king, froms[1..], friendly, m);
      TargetMovesAre(p, from, tos, m);
      assert m.to in tos <==> m.to in JumpTargets(king, from) - friendly;
      assert m.from in froms <==> m.from == from || m.from in froms[1..] by {
        assert froms == [from] + froms[1..];
      }
    }
  }

  /** Knight and king moves never land on a square of the mover's own pieces. */
  lemma JumpMovesAvoidFriends(b: Board, white: bool, m: Move)
    requires m in KnightMoves(b, white) || m in KingMoves(b, white)
    ensures m.to !in Friendly(b.pieces, white)
    ensures m in KnightMoves(b, white) ==> m.from in Knights(b.pieces, white) && KnightJump(m.from, m.to)
    ensures m in KingMoves(b, white) ==> m.from in Kings(b.pieces, white) && KingStep(m.from, m.to)
  {
    var p, f := b.pieces, Friendly(b.pieces, white);
    JumpMovesAre(p, false, Squares(Knights(p, white)), f, m);
    JumpMovesAre(p, true, Squares(Kings(p, white)), f, m);
  }

  // ---------------------------------------------------------------------------
  // Pawn moves

  /** One move per letter, each promoting to that letter, in order. */
  lemma {:induction false} PromotionsAre(from: int, to: int, captured: char, letters: seq<char>)
    ensures |Promotions(from, to, captured, letters)| == |letters|
    ensures forall i :: 0 <= i < |letters| ==>
      Promotions(from, to, captured, letters)[i] == SetPromotion(NewMove(from, to, captured), letters[i])
    decreases |letters|
  {
    if |letters| > 0 {
      PromotionsAre(from, to, captured, letters[1..]);
    }
  }

  /** A promotion yields exactly four moves, to Q, R, B, N (lower case for black). */
  lemma FourPromotions(white: bool, from: int, to: int, captured: char)
    ensures var r := Promotions(from, to, captured, PromotionLetters(white));
      && |r| == 4
      && (forall i :: 0 <= i < 4 ==>
            r[i].from == from && r[i].to == to && r[i].capturedPiece == captured &&
            r[i].isPromotion && !r[i].isCastling && !r[i].isEnPassant)
      && [r[0].promotionPiece, r[1].promotionPiece, r[2].promotionPiece, r[3].promotionPiece] ==
         (if white then "QRBN" else "qrbn")
  {
    PromotionsAre(from, to, captured, PromotionLetters(white));
  }

  /** A single push goes one rank forward onto an empty square, and exists exactly when
      that square is on the board and empty; on the last rank it is four promotions,
      otherwise one plain move. */
  lemma SinglePushIs(b: Board, white: bool, from: int)
    ensures var to := from + PushDirection(white); var r := SinglePush(b, white, from);
      && (r != [] <==> 0 <= to < 64 && PieceAt(b.pieces, to) == EMPTY)
      && (forall m :: m in r ==> m.from == from && m.to == to && m.capturedPiece == NUL && !m.isCastling && !m.isEnPassant)
      && (r != [] && LastRank(white, to) ==> |r| == 4 && forall m :: m in r ==> m.isPromotion)
      && (r != [] && !LastRank(white, to) ==> r == [NewMove(from, to, NUL)])
  {
    var to := from + PushDirection(white);
    PromotionsAre(from, to, NUL, PromotionLetters(white));
    if 0 <= to < 64 {
      AllPiecesMeansOccupied(b.pieces, to);
    }
  }

  /** A double push goes two ranks forward, only from the second rank (seventh for
      black), and only when both squares ahead are empty. */
  lemma DoublePushIs(b: Board, white: bool, from: int)
    requires 0 <= from < 64
    ensures var r := DoublePush(b, white, from);
      && (r != [] <==>
            && (if white then from / 8 == 1 else from / 8 == 6)
            && PieceAt(b.pieces, from + PushDirection(white)) == EMPTY
            && PieceAt(b.pieces, from + 2 * PushDirection(white)) == EMPTY)
      && (r != [] ==> r == [NewMove(from, from + 2 * PushDirection(white), NUL)])
  {
    var d := PushDirection(white);
    if (white && from / 8 == 1) || (!white && from / 8 == 6) {
      assert 0 <= from + d < 64 && 0 <= from + 2 * d < 64;
      AllPiecesMeansOccupied(b.pieces, from + d);
      AllPiecesMeansOccupied(b.pieces, from + 2 * d);
    }
  }

  /** A diagonal capture exists exactly when the target is on the board, one file away,
      and holds an enemy piece; the moves capture that piece, as four promotions on the
      last rank. */
  lemma DiagonalCaptureIs(b: Board, white: bool, from: int, target: int)
    requires Disjoint(b.pieces)
    ensures var r := DiagonalCapture(b, white, from, target);
      && (r != [] <==> 0 <= target < 64 && Abs(target % 8 - from % 8) == 1 && target in Friendly(b.pieces, !white))
      && (forall m :: m in r ==> m.from == from && m.to == target && m.capturedPiece == PieceAt(b.pieces, target) &&
                                 IsCapture(m) && !m.isCastling && !m.isEnPassant)
      && (r != [] && LastRank(white, target) ==> |r| == 4 && forall m :: m in r ==> m.isPromotion)
      && (r != [] && !LastRank(white, target) ==> |r| == 1 && !r[0].isPromotion)
  {
    PromotionsAre(from, target, PieceAt(b.pieces, target), PromotionLetters(white));
    if 0 <= target < 64 && target in Friendly(b.pieces, !white) {
      AllPiecesMeansOccupied(b.pieces, target);
    }
  }

  /** An en-passant move is flagged as such, goes to the en-passant square one file away
      from the pawn, and records the piece one rank behind that square. */
  lemma EnPassantIs(b: Board, white: bool, from: int, target: int)
    ensures var r := EnPassantCapture(b, white, from, target); var ep := b.enPassantSquare;
      && (r != [] <==> target == ep && Abs(from % 8 - JavaRem(ep, 8)) == 1)
      && (forall m :: m in r ==> m.isEnPassant && m.from == from && m.to == ep && !m.isPromotion && !m.isCastling &&
                                 m.capturedPiece == PieceAt(b.pieces, if white then ep - 8 else ep + 8))
  {
  }

  // ---------------------------------------------------------------------------
  // Castling

  /** A castling move is one of e1-g1, e1-c1, e8-g8, e8-c8 for the side to move, and is
      generated exactly when its right is held and the squares strictly between king and
      rook are empty. */
  lemma CastlingMovesAre(b: Board, white: bool, m: Move)
    ensures m in CastlingMoves(b, white) <==>
      && m == SetCastling(NewMove(m.from, m.to, NUL))
      && var all := AllPieces(b.pieces);
      if white then
        || (m.from == 4 && m.to == 6 && b.whiteCanCastleKingside && 5 !in all && 6 !in all)
        || (m.from == 4 && m.to == 2 && b.whiteCanCastleQueenside && 1 !in all && 2 !in all && 3 !in all)
      else
        || (m.from == 60 && m.to == 62 && b.blackCanCastleKingside && 61 !in all && 62 !in all)
        || (m.from == 60 && m.to == 58 && b.blackCanCastleQueenside && 57 !in all && 58 !in all && 59 !in all)
  {
  }

  // ---------------------------------------------------------------------------
  // Sliding rays

  /** One step along a sliding direction: the wrap test of generateSlidingMoves keeps
      exactly the squares one rank and file offset away on the board. */
  lemma DirStepExact(s: int, dir: int)
    requires 0 <= s < 64 && dir in QueenDirections
    ensures StepTarget(s, DirStep(dir)) == if 0 <= s + dir < 64 && !Wraps(s + dir, dir) then {s + dir} else {}
  {
    var r, f := s / 8, s % 8;
    var step := DirStep(dir);
    var t := s + dir;
    assert t == (r + step.0) * 8 + (f + step.1);
    if 0 <= t < 64 {
      assert JavaRem(t - dir, 8) == f;
      if f + step.1 == 8 {
        Octal(r + step.0 + 1, 0);
      } else if f + step.1 == -1 {
        Octal(r + step.0 - 1, 7);
      } else {
        Octal(r + step.0, f + step.1);
      }
    }
  }

  /** Rank and file of a square written as rank * 8 + file. */
  lemma Octal(rank: int, file: int)
    requires 0 <= file < 8 && 0 <= rank * 8 + file
    ensures (rank * 8 + file) / 8 == rank && JavaRem(rank * 8 + file, 8) == file
  {
  }

  /** Every move of the ray from `prev` starts on `from`, stays on the board beyond
      `prev`, never lands on a friendly piece, and captures what stands on a non-empty
      target. */
  lemma {:induction false} RayMoves(p: Pieces, from: int, dir: int, prev: int, friendly: Bitboard, all: Bitboard)
    requires 0 <= prev < 64 && dir in QueenDirections
    ensures forall m :: m in Ray(p, from, dir, prev + dir, friendly, all) ==>
      && 0 <= m.to < 64 && m.to !in friendly
      && (if dir > 0 then m.to > prev else m.to < prev)
      && m == NewMove(from, m.to, if m.to in all then PieceAt(p, m.to) else NUL)
    decreases if dir > 0 then 64 - prev else prev + 1
  {
    var to := prev + dir;
    if 0 <= to < 64 {
      assert Bit(to) == to;
    }
    if !(to < 0 || to >= 64 || Wraps(to, dir) || Bit(to) in friendly || Bit(to) in all) {
      RayMoves(p, from, dir, to, friendly, all);
    }
  }

  /** The shape of the ray from `prev`: it walks one step at a time along the direction
      without leaving the board or wrapping round an edge, passes only empty squares, and
      stops only at the edge, before a friendly piece, or after a capture. */
  lemma {:induction false} RayWalk(p: Pieces, from: int, dir: int, prev: int, friendly: Bitboard, all: Bitboard)
    requires 0 <= prev < 64 && dir in QueenDirections
    ensures var r := Ray(p, from, dir, prev + dir, friendly, all);
      && (|r| > 0 ==> StepTarget(prev, DirStep(dir)) == {r[0].to})
      && (forall i :: 0 <= i < |r| - 1 ==> r[i].to !in all && StepTarget(r[i].to, DirStep(dir)) == {r[i + 1].to})
      && var last := if |r| == 0 then prev else r[|r| - 1].to;
         (|r| == 0 || last !in all) ==> StepTarget(last, DirStep(dir)) <= friendly
    decreases if dir > 0 then 64 - prev else prev + 1
  {
    var to := prev + dir;
    DirStepExact(prev, dir);
    if !(to < 0 || to >= 64 || Wraps(to, dir) || Bit(to) in friendly || Bit(to) in all) {
      RayWalk(p, from, dir, to, friendly, all);
      var rest := Ray(p, from, dir, to + dir, friendly, all);
      var r := [NewMove(from, to, NUL)] + rest;
      assert Ray(p, from, dir, to, friendly, all) == r;
      if |rest| > 0 {
        assert r[1] == rest[0];
      }
    }
  }

  lemma {:induction false} SlideMovesFromAre(p: Pieces, from: int, dirs: seq<int>, friendly: Bitboard, all: Bitboard, m: Move)
    requires 0 <= from < 64 && forall d :: d in dirs ==> d in QueenDirections
    requires m in SlideMovesFrom(p, from, dirs, friendly, all)
    ensures m.from == from && 0 <= m.to < 64 && m.to != from && m.to !in friendly
    ensures m == NewMove(from, m.to, if m.to in all then PieceAt(p, m.to) else NUL)
    decreases |dirs|
  {
    RayMoves(p, from, dirs[0], from, friendly, all);
    if m !in Ray(p, from, dirs[0], from + dirs[0], friendly, all) {
      SlideMovesFromAre(p, from, dirs[1..], friendly, all, m);
    }
  }

  /** A rook, bishop or queen move starts on one of the pieces, goes to another on-board
      square that holds no friendly piece, and captures what stands there. */
  lemma {:induction false} SliderMovesAre(p: Pieces, froms: seq<Square>, dirs: seq<int>, friendly: Bitboard, all: Bitboard, m: Move)
    requires forall d :: d in dirs ==> d in QueenDirections
    requires m in SliderMoves(p, froms, dirs, friendly, all)
    ensures m.from in froms && 0 <= m.to < 64 && m.to != m.from && m.to !in friendly
    ensures m == NewMove(m.from, m.to, if m.to in all then PieceAt(p, m.to) else NUL)
    decreases |froms|
  {
    if m in SlideMovesFrom(p, froms[0], dirs, friendly, all) {
      SlideMovesFromAre(p, froms[0], dirs, friendly, all, m);
    } else {
      SliderMovesAre(p, froms[1..], dirs, friendly, all, m);
    }
  }

  /** Rook, bishop and queen moves never land on a square of the mover's own pieces. */
  lemma SliderMovesAvoidFriends(b: Board, white: bool, m: Move)
    requires m in RookMoves(b, white) || m in BishopMoves(b, white) || m in QueenMoves(b, white)
    ensures m.to !in Friendly(b.pieces, white)
    ensures m in RookMoves(b, white) ==> m.from in Rooks(b.pieces, white)
    ensures m in BishopMoves(b, white) ==> m.from in Bishops(b.pieces, white)
    ensures m in QueenMoves(b, white) ==> m.from in Queens(b.pieces, white)
  {
    SliderFacts(b, white, m);
  }

  lemma SliderFacts(b: Board, white: bool, m: Move)
    requires m in RookMoves(b, white) || m in BishopMoves(b, white) || m in QueenMoves(b, white)
    ensures 0 <= m.to < 64 && m.to != m.from && m.to !in Friendly(b.pieces, white)
    ensures m == NewMove(m.from, m.to, if m.to in AllPieces(b.pieces) then PieceAt(b.pieces, m.to) else NUL)
    ensures m in RookMoves(b, white) ==> m.from in Rooks(b.pieces, white)
    ensures m in BishopMoves(b, white) ==> m.from in Bishops(b.pieces, white)
    ensures m in QueenMoves(b, white) ==> m.from in Queens(b.pieces, white)
  {
    var p, f, a := b.pieces, Friendly(b.pieces, white), AllPieces(b.pieces);
    if m in RookMoves(b, white) {
      SliderMovesAre(p, Squares(Rooks(p, white)), RookDirections, f, a, m);
    }
    if m in BishopMoves(b, white) {
      SliderMovesAre(p, Squares(Bishops(p, white)), BishopDirections, f, a, m);
    }
    if m in QueenMoves(b, white) {
      SliderMovesAre(p, Squares(Queens(p, white)), QueenDirections, f, a, m);
    }
  }

  // ---------------------------------------------------------------------------
  // Every generated move is undone by unmakeMove

  /** A move that is not a promotion, castling or en passant, between two distinct
      squares, carrying what stands on the target (or '\0' for an empty target). */
  lemma PlainMoveReversible(b: Board, from: int, to: int, captured: char)
    requires Disjoint(b.pieces) && 0 <= from < 64 && 0 <= to < 64 && from != to
    requires captured == PieceAt(b.pieces, to) || (captured == NUL && PieceAt(b.pieces, to) == EMPTY)
    ensures Reversible(b, NewMove(from, to, captured))
  {
  }

  lemma JumpMovesReversible(b: Board, m: Move)
    requires Disjoint(b.pieces)
    requires m in KnightMoves(b, b.isWhiteTurn) || m in KingMoves(b, b.isWhiteTurn)
    ensures Reversible(b, m)
  {
    var p, white := b.pieces, b.isWhiteTurn;
    JumpMovesAre(p, false, Squares(Knights(p, white)), Friendly(p, white), m);
    JumpMovesAre(p, true, Squares(Kings(p, white)), Friendly(p, white), m);
    PlainMoveReversible(b, m.from, m.to, m.capturedPiece);
  }

  lemma SliderMovesReversible(b: Board, m: Move)
    requires Disjoint(b.pieces)
    requires m in RookMoves(b, b.isWhiteTurn) || m in BishopMoves(b, b.isWhiteTurn) || m in QueenMoves(b, b.isWhiteTurn)
    ensures Reversible(b, m)
  {
    SliderFacts(b, b.isWhiteTurn, m);
    AllPiecesMeansOccupied(b.pieces, m.to);
    PlainMoveReversible(b, m.from, m.to, m.capturedPiece);
  }

  lemma CastlingMovesReversible(b: Board, m: Move)
    requires WellFormed(b) && m in CastlingMoves(b, b.isWhiteTurn)
    ensures Reversible(b, m)
  {
    CastlingMovesAre(b, b.isWhiteTurn, m);
    var p := b.pieces;
    AllPiecesMeansOccupied(p, m.to);
    AllPiecesMeansOccupied(p, RookDest(m.from, m.to));
    var home := RookHome(m.from, m.to);
    assert home in Bits(p, RookLetter(m.from));
  }

  lemma PushReversible(b: Board, from: int, m: Move)
    requires Disjoint(b.pieces) && from in Pawns(b.pieces, b.isWhiteTurn)
    requires m in SinglePush(b, b.isWhiteTurn, from) || m in DoublePush(b, b.isWhiteTurn, from)
    ensures Reversible(b, m)
  {
    var white := b.isWhiteTurn;
    assert from in Bits(b.pieces, PawnLetter(white));
    SinglePushIs(b, white, from);
    DoublePushIs(b, white, from);
  }

  lemma DiagonalReversible(b: Board, from: int, target: int, m: Move)
    requires Disjoint(b.pieces) && from in Pawns(b.pieces, b.isWhiteTurn)
    requires m in DiagonalCapture(b, b.isWhiteTurn, from, target)
    ensures Reversible(b, m)
  {
    assert from in Bits(b.pieces, PawnLetter(b.isWhiteTurn));
    DiagonalCaptureIs(b, b.isWhiteTurn, from, target);
  }

  lemma EnPassantReversible(b: Board, from: int, m: Move)
    requires WellFormed(b) && from in Pawns(b.pieces, b.isWhiteTurn) && b.enPassantSquare != -1
    requires m in EnPassantCapture(b, b.isWhiteTurn, from, LeftCapture(b.isWhiteTurn, from)) ||
             m in EnPassantCapture(b, b.isWhiteTurn, from, RightCapture(b.isWhiteTurn, from))
    ensures Reversible(b, m)
  {
    var white, ep := b.isWhiteTurn, b.enPassantSquare;
    EnPassantIs(b, white, from, LeftCapture(white, from));
    EnPassantIs(b, white, from, RightCapture(white, from));
    AllPiecesMeansOccupied(b.pieces, ep);
    assert Abs(from % 8 - ep % 8) == 1;
  }

  lemma PawnMoveReversible(b: Board, from: int, m: Move)
    requires WellFormed(b) && from in Pawns(b.pieces, b.isWhiteTurn)
    requires m in PawnMovesFrom(b, b.isWhiteTurn, from)
    ensures Reversible(b, m)
  {
    var white := b.isWhiteTurn;
    var left, right := LeftCapture(white, from), RightCapture(white, from);
    if m in SinglePush(b, white, from) || m in DoublePush(b, white, from) {
      PushReversible(b, from, m);
    } else if m in DiagonalCapture(b, white, from, left) {
      DiagonalReversible(b, from, left, m);
    } else if m in DiagonalCapture(b, white, from, right) {
      DiagonalReversible(b, from, right, m);
    } else {
      EnPassantReversible(b, from, m);
    }
  }

  lemma {:induction false} PawnMovesOfReversible(b: Board, froms: seq<Square>, m: Move)
    requires WellFormed(b) && forall sq :: sq in froms ==> sq in Pawns(b.pieces, b.isWhiteTurn)
    requires m in PawnMovesOf(b, b.isWhiteTurn, froms)
    ensures Reversible(b, m)
    decreases |froms|
  {
    if m in PawnMovesFrom(b, b.isWhiteTurn, froms[0]) {
      PawnMoveReversible(b, froms[0], m);
    } else {
      PawnMovesOfReversible(b, froms[1..], m);
    }
  }

  /** On a well-formed board every pseudo-legal move satisfies what makeMove and
      unmakeMove need to cancel out. */
  lemma GeneratedMovesReversible(b: Board, m: Move)
    requires WellFormed(b) && m in PseudoLegalMoves(b)
    ensures Reversible(b, m)
    ensures Unmake(Make(b, m), m, Snapshot(b)) == b
  {
    var white := b.isWhiteTurn;
    if m in KnightMoves(b, white) || m in KingMoves(b, white) {
      JumpMovesReversible(b, m);
    } else if m in PawnMoves(b, white) {
      PawnMovesOfReversible(b, Squares(Pawns(b.pieces, white)), m);
    } else if m in RookMoves(b, white) || m in BishopMoves(b, white) || m in QueenMoves(b, white) {
      SliderMovesReversible(b, m);
    } else {
      CastlingMovesReversible(b, m);
    }
    MakeUnmakeRoundTrip(b, m);
  }

  // ---------------------------------------------------------------------------
  // Legal moves

  /** When every move can be undone, the make / test / unmake loop returns the board it
      started from and keeps exactly the moves after which the mover is not in check. */
  lemma {:induction false} LegalFilterRestores(b: Board, white: bool, moves: seq<Move>)
    requires forall m :: m in moves ==> Reversible(b, m)
    ensures LegalFilter(b, white, moves).0 == b
    ensures LegalFilter(b, white, moves).1 == KeepLegal(b, white, moves)
    decreases |moves|
  {
    if |moves| > 0 {
      var m := moves[0];
      var after := Make(b, m);
      MakeUnmakeRoundTrip(b, m);
      assert Unmake(after, m, Snapshot(b)) == b;
      assert forall x :: x in moves[1..] ==> x in moves;
      LegalFilterRestores(b, white, moves[1..]);
      var rest := LegalFilter(b, white, moves[1..]);
      var keep := !InCheck(after, white);
      assert LegalFilter(b, white, moves) == (rest.0, (if keep then [m] else []) + rest.1);
      assert KeepLegal(b, white, moves) == (if keep then [m] else []) + KeepLegal(b, white, moves[1..]);
    }
  }

  /** The kept moves are those of the list after which the mover's king is not in check. */
  lemma {:induction false} KeepLegalMembers(b: Board, white: bool, moves: seq<Move>)
    ensures forall m :: m in KeepLegal(b, white, moves) <==> m in moves && !InCheck(Make(b, m), white)
    decreases |moves|
  {
    if |moves| > 0 {
      KeepLegalMembers(b, white, moves[1..]);
      var head := if !InCheck(Make(b, moves[0]), white) then [moves[0]] else [];
      assert KeepLegal(b, white, moves) == head + KeepLegal(b, white, moves[1..]);
      assert moves == [moves[0]] + moves[1..];
    }
  }

  /** The kept moves keep their original order. */
  lemma {:induction false} KeepLegalInOrder(b: Board, white: bool, moves: seq<Move>)
    ensures IsSubsequence(KeepLegal(b, white, moves), moves)
    decreases |moves|
  {
    if |moves| > 0 {
      KeepLegalInOrder(b, white, moves[1..]);
      var rest := KeepLegal(b, white, moves[1..]);
      if !InCheck(Make(b, moves[0]), white) {
        assert KeepLegal(b, white, moves) == [moves[0]] + rest;
        assert ([moves[0]] + rest)[1..] == rest;
      } else {
        assert KeepLegal(b, white, moves) == rest;
        SubsequenceOfTail(rest, moves);
      }
    }
  }

  lemma {:induction false} SubsequenceOfTail(a: seq<Move>, b: seq<Move>)
    requires |b| > 0 && IsSubsequence(a, b[1..])
    ensures IsSubsequence(a, b)
    decreases |b|, 0
  {
    if |a| > 0 && a[0] == b[0] {
      SubsequenceDropHead(a, b[1..]);
    }
  }

  lemma {:induction false} SubsequenceDropHead(a: seq<Move>, c: seq<Move>)
    requires |a| > 0 && IsSubsequence(a, c)
    ensures IsSubsequence(a[1..], c)
    decreases |c|, 1
  {
    if a[0] == c[0] {
      SubsequenceOfTail(a[1..], c);
    } else {
      SubsequenceDropHead(a, c[1..]);
      SubsequenceOfTail(a[1..], c);
    }
  }

  /** generateLegalMoves on a well-formed board leaves it as it was and returns, in the
      generator's order, the pseudo-legal moves after which the mover is not in check. */
  lemma LegalMovesAre(b: Board)
    requires WellFormed(b)
    ensures LegalFilter(b, b.isWhiteTurn, PseudoLegalMoves(b)).0 == b
    ensures IsSubsequence(LegalMoves(b), PseudoLegalMoves(b))
    ensures forall m :: m in LegalMoves(b) <==> m in PseudoLegalMoves(b) && !InCheck(Make(b, m), b.isWhiteTurn)
  {
    forall m | m in PseudoLegalMoves(b) ensures Reversible(b, m) {
      GeneratedMovesReversible(b, m);
    }
    LegalFilterRestores(b, b.isWhiteTurn, PseudoLegalMoves(b));
    KeepLegalMembers(b, b.isWhiteTurn, PseudoLegalMoves(b));
    KeepLegalInOrder(b, b.isWhiteTurn, PseudoLegalMoves(b));
  }

  // ---------------------------------------------------------------------------
  // makeMove keeps the board well formed

  /** A square makeMove does not touch (not the origin, the target, the capture square or
      a square of the castling rook) keeps its piece. */
  lemma MakeKeepsCell(b: Board, m: Move, sq: int)
    requires Reversible(b, m) && 0 <= sq < 64 && sq != m.from && sq != m.to
    requires IsCapture(m) ==> sq != CaptureSquare(b.isWhiteTurn, m)
    requires m.isCastling && CastlingPattern(m.from, m.to) ==>
      sq != RookHome(m.from, m.to) && sq != RookDest(m.from, m.to)
    ensures Disjoint(Make(b, m).pieces)
    ensures PieceAt(Make(b, m).pieces, sq) == PieceAt(b.pieces, sq)
  {
    var p, white := b.pieces, b.isWhiteTurn;
    assert Reversible(Board(p, white, 0, false, false, false, false, -1), m);
    MakePiecesCells(p, white, m);
    CellsAt(p);
    CellsAt(MakePieces(p, white, m));
  }

  /** makeMove keeps the bitboards disjoint. */
  lemma MakeKeepsDisjoint(b: Board, m: Move)
    requires Reversible(b, m)
    ensures Disjoint(Make(b, m).pieces)
  {
    assert Reversible(Board(b.pieces, b.isWhiteTurn, 0, false, false, false, false, -1), m);
    MakePiecesCells(b.pieces, b.isWhiteTurn, m);
  }

  /** A pawn move that goes two ranks forward is the double push: from the starting rank,
      over an empty square, capturing nothing. */
  lemma PawnMoveShape(b: Board, white: bool, from: int, m: Move)
    requires Disjoint(b.pieces) && 0 <= from < 64 && m in PawnMovesFrom(b, white, from)
    ensures m.from == from && !m.isCastling
    ensures m.to == from + 2 * PushDirection(white) ==>
      && !IsCapture(m) && (if white then from / 8 == 1 else from / 8 == 6)
      && PieceAt(b.pieces, from + PushDirection(white)) == EMPTY
  {
    SinglePushIs(b, white, from);
    DoublePushIs(b, white, from);
    DiagonalCaptureIs(b, white, from, LeftCapture(white, from));
    DiagonalCaptureIs(b, white, from, RightCapture(white, from));
    EnPassantIs(b, white, from, LeftCapture(white, from));
    EnPassantIs(b, white, from, RightCapture(white, from));
  }

  lemma {:induction false} PawnMovesOfShape(b: Board, white: bool, froms: seq<Square>, m: Move)
    requires Disjoint(b.pieces) && m in PawnMovesOf(b, white, froms)
    ensures m.from in froms && !m.isCastling
    ensures m.to == m.from + 2 * PushDirection(white) ==>
      && !IsCapture(m) && (if white then m.from / 8 == 1 else m.from / 8 == 6)
      && PieceAt(b.pieces, m.from + PushDirection(white)) == EMPTY
    decreases |froms|
  {
    if m in PawnMovesFrom(b, white, froms[0]) {
      PawnMoveShape(b, white, froms[0], m);
    } else {
      PawnMovesOfShape(b, white, froms[1..], m);
    }
  }

  /** On disjoint bitboards getPieceAt names the bitboard that holds the square. */
  lemma LetterOwnsSquare(p: Pieces, sq: Square, c: char)
    requires Disjoint(p) && IsPieceLetter(c) && sq in Bits(p, c)
    ensures PieceAt(p, sq) == c
  {
  }

  /** A knight, king, rook, bishop or queen move is no castling and moves no pawn. */
  lemma PieceMoveShape(b: Board, white: bool, m: Move)
    requires Disjoint(b.pieces)
    requires || m in KnightMoves(b, white) || m in KingMoves(b, white)
             || m in RookMoves(b, white) || m in BishopMoves(b, white) || m in QueenMoves(b, white)
    ensures !m.isCastling && PieceAt(b.pieces, m.from) != 'P' && PieceAt(b.pieces, m.from) != 'p'
  {
    var p := b.pieces;
    if m in KnightMoves(b, white) || m in KingMoves(b, white) {
      JumpMovesAvoidFriends(b, white, m);
      JumpMovesAre(p, false, Squares(Knights(p, white)), Friendly(p, white), m);
      JumpMovesAre(p, true, Squares(Kings(p, white)), Friendly(p, white), m);
    } else {
      SliderFacts(b, white, m);
    }
    OfficerNotPawn(p, white, m.from);
  }

  /** A square of a knight, king, rook, bishop or queen holds no pawn. */
  lemma OfficerNotPawn(p: Pieces, white: bool, sq: int)
    requires Disjoint(p)
    requires || sq in Knights(p, white) || sq in Kings(p, white)
             || sq in Rooks(p, white) || sq in Bishops(p, white) || sq in Queens(p, white)
    ensures PieceAt(p, sq) != 'P' && PieceAt(p, sq) != 'p'
  {
    var x: Square := sq;
    if white {
      if x in p.whiteKnight { LetterOwnsSquare(p, x, 'N'); }
      else if x in p.whiteKing { LetterOwnsSquare(p, x, 'K'); }
      else if x in p.whiteRook { LetterOwnsSquare(p, x, 'R'); }
      else if x in p.whiteBishop { LetterOwnsSquare(p, x, 'B'); }
      else { LetterOwnsSquare(p, x, 'Q'); }
    } else {
      if x in p.blackKnight { LetterOwnsSquare(p, x, 'n'); }
      else if x in p.blackKing { LetterOwnsSquare(p, x, 'k'); }
      else if x in p.blackRook { LetterOwnsSquare(p, x, 'r'); }
      else if x in p.blackBishop { LetterOwnsSquare(p, x, 'b'); }
      else { LetterOwnsSquare(p, x, 'q'); }
    }
  }

  /** A pawn move starts on a pawn of the side to move. */
  lemma PawnMovesShape(b: Board, white: bool, m: Move)
    requires Disjoint(b.pieces) && m in PawnMoves(b, white)
    ensures !m.isCastling && PieceAt(b.pieces, m.from) == PawnLetter(white)
    ensures m.to == m.from + 2 * PushDirection(white) ==>
      && !IsCapture(m) && (if white then m.from / 8 == 1 else m.from / 8 == 6)
      && PieceAt(b.pieces, m.from + PushDirection(white)) == EMPTY
  {
    var p := b.pieces;
    PawnMovesOfShape(b, white, Squares(Pawns(p, white)), m);
    assert m.from in Squares(Pawns(p, white));
    PawnOwnsSquare(p, white, m.from);
  }

  lemma PawnOwnsSquare(p: Pieces, white: bool, sq: Square)
    requires Disjoint(p) && sq in Pawns(p, white)
    ensures PieceAt(p, sq) == PawnLetter(white)
  {
    if white {
      LetterOwnsSquare(p, sq, 'P');
    } else {
      LetterOwnsSquare(p, sq, 'p');
    }
  }

  /** A castling move is made by the king of the side to move, from its home square. */
  lemma CastlingMoveShape(b: Board, white: bool, m: Move)
    requires Disjoint(b.pieces) && KingsHome(b) && m in CastlingMoves(b, white)
    ensures m.isCastling && CastlingPattern(m.from, m.to) && m.from == (if white then 4 else 60)
    ensures PieceAt(b.pieces, m.from) == (if white then 'K' else 'k')
  {
    CastlingMovesAre(b, white, m);
    assert m.from in Bits(b.pieces, if white then 'K' else 'k');
  }

  /** What makeMove's bookkeeping takes for granted about a generated move: castling is
      made by the king of the side to move, and a pawn that goes two ranks forward passes
      over an empty square and captures nothing. */
  lemma GeneratedMoveShape(b: Board, m: Move)
    requires WellFormed(b) && KingsHome(b) && m in PseudoLegalMoves(b)
    ensures m.isCastling ==>
      && CastlingPattern(m.from, m.to) && m.from == (if b.isWhiteTurn then 4 else 60)
      && PieceAt(b.pieces, m.from) == (if b.isWhiteTurn then 'K' else 'k')
    ensures PieceAt(b.pieces, m.from) == 'P' && m.to - m.from == 16 ==>
      !IsCapture(m) && !m.isCastling && m.from / 8 == 1 && PieceAt(b.pieces, m.from + 8) == EMPTY
    ensures PieceAt(b.pieces, m.from) == 'p' && m.from - m.to == 16 ==>
      !IsCapture(m) && !m.isCastling && m.from / 8 == 6 && PieceAt(b.pieces, m.from - 8) == EMPTY
  {
    var white := b.isWhiteTurn;
    if m in PawnMoves(b, white) {
      PawnMovesShape(b, white, m);
    } else if m in CastlingMoves(b, white) {
      CastlingMoveShape(b, white, m);
    } else {
      PieceMoveShape(b, white, m);
    }
  }

  /** The piece a held right relies on: its king on e1 (e8), its rook on the corner. */
  function AnchorLetter(sq: int): char
  {
    if sq == 4 then 'K' else if sq == 60 then 'k' else if sq < 32 then 'R' else 'r'
  }

  /** On a well-formed board with its kings at home every square a held right relies
      on holds the piece the right needs. */
  lemma AnchorOccupied(b: Board, sq: int)
    requires WellFormed(b) && KingsHome(b) && Anchor(b, sq)
    ensures PieceAt(b.pieces, sq) == AnchorLetter(sq)
  {
    var p, x: Square := b.pieces, sq;
    if sq == 4 { LetterOwnsSquare(p, x, 'K'); }
    else if sq == 60 { LetterOwnsSquare(p, x, 'k'); }
    else if sq < 32 { LetterOwnsSquare(p, x, 'R'); }
    else { LetterOwnsSquare(p, x, 'r'); }
  }

  /** An occupied square that makeMove neither lifts from, captures on nor passes a
      castling rook over keeps its piece: a reversible move only lands on an occupied
      square by capturing there. */
  lemma OccupiedCellKept(b: Board, m: Move, sq: int)
    requires Reversible(b, m) && 0 <= sq < 64 && PieceAt(b.pieces, sq) != EMPTY && sq != m.from
    requires IsCapture(m) ==> sq != CaptureSquare(b.isWhiteTurn, m)
    requires m.isCastling && CastlingPattern(m.from, m.to) ==>
      sq != RookHome(m.from, m.to) && sq != RookDest(m.from, m.to)
    ensures PieceAt(Make(b, m).pieces, sq) == PieceAt(b.pieces, sq)
  {
    assert sq != m.to;
    MakeKeepsCell(b, m, sq);
  }

  /** A square a right still held after makeMove relies on was relied on before and
      keeps its piece. */
  lemma AnchorKept(b: Board, m: Move, sq: int)
    requires WellFormed(b) && KingsHome(b) && m in PseudoLegalMoves(b) && !TakesAnchor(b, m)
    requires Anchor(Make(b, m), sq)
    ensures Anchor(b, sq)
    ensures PieceAt(Make(b, m).pieces, sq) == PieceAt(b.pieces, sq)
  {
    GeneratedMovesReversible(b, m);
    GeneratedMoveShape(b, m);
    if Anchor(b, m.from) {
      AnchorOccupied(b, m.from);
    }
    AnchorUntouched(b, m, sq);
    AnchorOccupied(b, sq);
    OccupiedCellKept(b, m, sq);
  }

  /** A right held after makeMove was held before, and its square is neither the origin
      nor a square of the castling rook: lifting the king or the rook drops the right,
      and castling drops both rights of the side that castles. */
  lemma AnchorUntouched(b: Board, m: Move, sq: int)
    requires Anchor(Make(b, m), sq)
    requires Anchor(b, m.from) ==> PieceAt(b.pieces, m.from) == AnchorLetter(m.from)
    requires m.isCastling ==>
      && CastlingPattern(m.from, m.to) && m.from == (if b.isWhiteTurn then 4 else 60)
      && PieceAt(b.pieces, m.from) == (if b.isWhiteTurn then 'K' else 'k')
    ensures Anchor(b, sq) && sq != m.from
    ensures m.isCastling ==> sq != RookHome(m.from, m.to) && sq != RookDest(m.from, m.to)
  {
  }

  /** The piece a right still held after makeMove relies on is still on its square. */
  lemma AnchorStays(b: Board, m: Move, sq: int)
    requires WellFormed(b) && KingsHome(b) && m in PseudoLegalMoves(b) && !TakesAnchor(b, m)
    requires Anchor(Make(b, m), sq)
    ensures sq in Bits(Make(b, m).pieces, AnchorLetter(sq))
  {
    AnchorKept(b, m, sq);
    AnchorOccupied(b, sq);
    HoldsAnchor(Make(b, m).pieces, sq);
  }

  lemma HoldsAnchor(p: Pieces, sq: int)
    requires sq in {0, 4, 7, 56, 60, 63} && PieceAt(p, sq) == AnchorLetter(sq)
    ensures sq in Bits(p, AnchorLetter(sq))
  {
    assert Bit(sq) == sq;
  }

  /** The en-passant square makeMove records, if any, is the empty square the pawn
      passed over. */
  lemma MakeEnPassantEmpty(b: Board, m: Move)
    requires WellFormed(b) && KingsHome(b) && m in PseudoLegalMoves(b)
    ensures var ep := Make(b, m).enPassantSquare;
      ep == -1 || (0 <= ep < 64 && ep !in AllPieces(Make(b, m).pieces))
  {
    var ep := Make(b, m).enPassantSquare;
    if ep != -1 {
      GeneratedMovesReversible(b, m);
      GeneratedMoveShape(b, m);
      MakeKeepsCell(b, m, ep);
      AllPiecesMeansOccupied(Make(b, m).pieces, ep);
    }
  }

  /** makeMove keeps a board well formed, and its kings at home for the rights still
      held, unless it captures on a square a held right relies on. */
  lemma MakeKeepsWellFormed(b: Board, m: Move)
    requires WellFormed(b) && KingsHome(b) && m in PseudoLegalMoves(b) && !TakesAnchor(b, m)
    ensures WellFormed(Make(b, m)) && KingsHome(Make(b, m))
  {
    var a := Make(b, m);
    GeneratedMovesReversible(b, m);
    MakeKeepsDisjoint(b, m);
    forall sq | Anchor(a, sq)
      ensures sq in Bits(a.pieces, AnchorLetter(sq))
    {
      AnchorStays(b, m, sq);
    }
    MakeEnPassantEmpty(b, m);
    AnchorsHeld(a);
  }

  /** A board whose held rights find their pieces on their squares has its kings at
      home and its rooks on their corners. */
  lemma AnchorsHeld(a: Board)
    requires forall sq :: Anchor(a, sq) ==> sq in Bits(a.pieces, AnchorLetter(sq))
    ensures a.whiteCanCastleKingside ==> 7 in a.pieces.whiteRook
    ensures a.whiteCanCastleQueenside ==> 0 in a.pieces.whiteRook
    ensures a.blackCanCastleKingside ==> 63 in a.pieces.blackRook
    ensures a.blackCanCastleQueenside ==> 56 in a.pieces.blackRook
    ensures KingsHome(a)
  {
    assert Anchor(a, 7) ==> 7 in Bits(a.pieces, AnchorLetter(7));
    assert Anchor(a, 0) ==> 0 in Bits(a.pieces, AnchorLetter(0));
    assert Anchor(a, 63) ==> 63 in Bits(a.pieces, AnchorLetter(63));
    assert Anchor(a, 56) ==> 56 in Bits(a.pieces, AnchorLetter(56));
    assert Anchor(a, 4) ==> 4 in Bits(a.pieces, AnchorLetter(4));
    assert Anchor(a, 60) ==> 60 in Bits(a.pieces, AnchorLetter(60));
  }
}
