/** MoveGenerator.java: the attack tables, the per-piece generators appending to a
    shared move list, generateMoves, generateLegalMoves and Position.isKingInCheck.
    Each method is proved to append exactly the list the matching function of module
    MoveRules describes. */
module MoveGenerator {
  import opened Bitboards
  import opened JavaLib
  import opened Moves
  import opened Boards
  import opened MoveRules
  import opened MoveLemmas
  import opened Positions

  /** The `List<Move>` the generators append to. */
  class MoveList {
    var items: seq<Move>

    constructor ()
      ensures items == []
    {
      items := [];
    }

    method Add(m: Move)
      modifies this
      ensures items == old(items) + [m]
    {
      items := items + [m];
    }
  }

  /** KNIGHT_ATTACKS and KING_ATTACKS, filled once by the static initializer. */
  class AttackTables {
    const knight: array<Bitboard>
    const king: array<Bitboard>

    ghost predicate Valid()
      reads this, knight, king
    {
      && knight.Length == 64 && king.Length == 64
      && forall sq :: 0 <= sq < 64 ==> knight[sq] == KnightTargets(sq) && king[sq] == KingTargets(sq)
    }

    /** The static initializer: one entry per square. */
    constructor ()
      ensures Valid()
    {
      var knightTable := new Bitboard[64];
      var kingTable := new Bitboard[64];
      for square := 0 to 64
        invariant forall sq :: 0 <= sq < square ==> knightTable[sq] == KnightTargets(sq) && kingTable[sq] == KingTargets(sq)
      {
        knightTable[square] := ComputeKnightAttacks(square);
        kingTable[square] := ComputeKingAttacks(square);
      }
      knight := knightTable;
      king := kingTable;
    }
  }

  /** The loop shared by computeKnightAttacks and computeKingAttacks: set the bit of every
      offset that stays on the board. */
  method ComputeAttacks(square: int, steps: seq<Step>) returns (attacks: Bitboard)
    requires 0 <= square < 64
    ensures attacks == StepUnion(square, steps)
  {
    attacks := {};
    var rank, file := square / 8, square % 8;
    for k := 0 to |steps|
      invariant attacks == StepUnion(square, steps[..k])
    {
      var newRank, newFile := rank + steps[k].0, file + steps[k].1;
      if 0 <= newRank < 8 && 0 <= newFile < 8 {
        var targetSquare := newRank * 8 + newFile;
        attacks := attacks + {Bit(targetSquare)};
      }
      assert steps[..k + 1][..k] == steps[..k];
    }
    assert steps[..|steps|] == steps;
  }

  /** computeKnightAttacks: exactly the on-board squares a knight's L away. */
  method ComputeKnightAttacks(square: int) returns (attacks: Bitboard)
    requires 0 <= square < 64
    ensures attacks == KnightTargets(square)
    ensures forall to :: to in attacks <==> 0 <= to < 64 && KnightJump(square, to)
  {
    attacks := ComputeAttacks(square, KnightSteps);
    KnightTableExact(square);
  }

  /** computeKingAttacks: exactly the on-board squares next to it. */
  method ComputeKingAttacks(square: int) returns (attacks: Bitboard)
    requires 0 <= square < 64
    ensures attacks == KingTargets(square)
    ensures forall to :: to in attacks <==> 0 <= to < 64 && KingStep(square, to)
  {
    attacks := ComputeAttacks(square, KingSteps);
    KingTableExact(square);
  }

  /** getFriendlyPieces. */
  method GetFriendlyPieces(position: Position, isWhite: bool) returns (pieces: Bitboard)
    ensures pieces == Friendly(position.Placement(), isWhite)
  {
    if isWhite {
      pieces := position.whitePawn + position.whiteKnight + position.whiteBishop +
                position.whiteRook + position.whiteQueen + position.whiteKing;
    } else {
      pieces := position.blackPawn + position.blackKnight + position.blackBishop +
                position.blackRook + position.blackQueen + position.blackKing;
    }
  }

  /** getAllPieces. */
  method GetAllPieces(position: Position) returns (pieces: Bitboard)
    ensures pieces == AllPieces(position.Placement())
    ensures forall sq: Square :: sq in pieces <==> PieceAt(position.Placement(), sq) != EMPTY
  {
    var white := GetFriendlyPieces(position, true);
    var black := GetFriendlyPieces(position, false);
    pieces := white + black;
  }

  // ---------------------------------------------------------------------------
  // Knights and kings

  /** The outer loop of generateKnightMoves and generateKingMoves: for each piece, lowest
      square first, the moves to its table squares free of friendly pieces. */
  method AddJumpMoves(position: Position, moves: MoveList, pieces: Bitboard, table: array<Bitboard>,
                      ghost isKing: bool, friendlyPieces: Bitboard)
    requires table.Length == 64 && forall sq :: 0 <= sq < 64 ==> table[sq] == JumpTargets(isKing, sq)
    modifies moves
    ensures moves.items == old(moves.items) + JumpMoves(position.Placement(), isKing, Squares(pieces), friendlyPieces)
  {
    ghost var p := position.Placement();
    var remaining := pieces;
    while remaining != {}
      invariant moves.items + JumpMoves(p, isKing, Squares(remaining), friendlyPieces) ==
                old(moves.items) + JumpMoves(p, isKing, Squares(pieces), friendlyPieces)
      decreases |remaining|
    {
      var from := NumberOfTrailingZeros(remaining);
      ghost var all := remaining;
      remaining := remaining - {from};
      ghost var rest := remaining;
      assert Squares(all) == [from] + Squares(rest);
      var attacks := table[from];
      var validMoves := attacks - friendlyPieces;
      ghost var before := moves.items;
      AddTargetMoves(position, moves, from, validMoves);
      SeqAssociative(before, TargetMoves(p, from, Squares(validMoves)), JumpMoves(p, isKing, Squares(rest), friendlyPieces));
    }
  }

  /** The inner loop: one move per target square, lowest first, carrying getPieceAt of the
      target. */
  method AddTargetMoves(position: Position, moves: MoveList, from: int, targets: Bitboard)
    modifies moves
    ensures moves.items == old(moves.items) + TargetMoves(position.Placement(), from, Squares(targets))
  {
    ghost var p := position.Placement();
    var validMoves := targets;
    while validMoves != {}
      invariant moves.items + TargetMoves(p, from, Squares(validMoves)) ==
                old(moves.items) + TargetMoves(p, from, Squares(targets))
      decreases |validMoves|
    {
      var to := NumberOfTrailingZeros(validMoves);
      ghost var all := validMoves;
      validMoves := validMoves - {to};
      ghost var rest := validMoves;
      assert Squares(all) == [to] + Squares(rest);
      var captured := position.GetPieceAt(to);
      ghost var before := moves.items;
      moves.Add(NewMove(from, to, captured));
      SeqAssociative(before, [NewMove(from, to, captured)], TargetMoves(p, from, Squares(rest)));
    }
  }

  lemma SeqAssociative(a: seq<Move>, b: seq<Move>, c: seq<Move>)
    ensures (a + b) + c == a + (b + c)
  {
  }

  /** generateKnightMoves. */
  method GenerateKnightMoves(tables: AttackTables, position: Position, moves: MoveList, isWhite: bool)
    requires tables.Valid()
    modifies moves
    ensures moves.items == old(moves.items) + KnightMoves(position.State(), isWhite)
  {
    var knights := if isWhite then position.whiteKnight else position.blackKnight;
    var friendlyPieces := GetFriendlyPieces(position, isWhite);
    AddJumpMoves(position, moves, knights, tables.knight, false, friendlyPieces);
  }

  /** generateKingMoves. */
  method GenerateKingMoves(tables: AttackTables, position: Position, moves: MoveList, isWhite: bool)
    requires tables.Valid()
    modifies moves
    ensures moves.items == old(moves.items) + KingMoves(position.State(), isWhite)
  {
    var kings := if isWhite then position.whiteKing else position.blackKing;
    var friendlyPieces := GetFriendlyPieces(position, isWhite);
    AddJumpMoves(position, moves, kings, tables.king, true, friendlyPieces);
  }

  // ---------------------------------------------------------------------------
  // Pawns

  /** The promotion loop: one move per letter, each with the promotion set. */
  method AddPromotions(moves: MoveList, from: int, to: int, captured: char, isWhite: bool)
    modifies moves
    ensures moves.items == old(moves.items) + Promotions(from, to, captured, PromotionLetters(isWhite))
  {
    var promotionPieces := if isWhite then ['Q', 'R', 'B', 'N'] else ['q', 'r', 'b', 'n'];
    for i := 0 to |promotionPieces|
      invariant moves.items + Promotions(from, to, captured, promotionPieces[i..]) ==
                old(moves.items) + Promotions(from, to, captured, promotionPieces)
    {
      var move := SetPromotion(NewMove(from, to, captured), promotionPieces[i]);
      ghost var before := moves.items;
      moves.Add(move);
      SeqAssociative(before, [move], Promotions(from, to, captured, promotionPieces[i + 1..]));
    }
  }

  /** Step 1 of generatePawnMoves: the single push. */
  method AddSinglePush(position: Position, moves: MoveList, isWhite: bool, from: int, allPieces: Bitboard)
    requires allPieces == AllPieces(position.Placement())
    modifies moves
    ensures moves.items == old(moves.items) + SinglePush(position.State(), isWhite, from)
  {
    var to := from + PushDirection(isWhite);
    if 0 <= to < 64 {
      if Bit(to) !in allPieces {
        var toRank := to / 8;
        if (isWhite && toRank == 7) || (!isWhite && toRank == 0) {
          AddPromotions(moves, from, to, NUL, isWhite);
        } else {
          moves.Add(NewMove(from, to, NUL));
        }
      }
    }
  }

  /** Step 2 of generatePawnMoves: the double push from the starting rank. */
  method AddDoublePush(position: Position, moves: MoveList, isWhite: bool, from: int, allPieces: Bitboard)
    requires allPieces == AllPieces(position.Placement())
    modifies moves
    ensures moves.items == old(moves.items) + DoublePush(position.State(), isWhite, from)
  {
    var fromRank := from / 8;
    var onStartingRank := (isWhite && fromRank == 1) || (!isWhite && fromRank == 6);
    if onStartingRank {
      var doublePushTo := from + PushDirection(isWhite) * 2;
      var singlePushTo := from + PushDirection(isWhite);
      if Bit(doublePushTo) !in allPieces && Bit(singlePushTo) !in allPieces {
        moves.Add(NewMove(from, doublePushTo, NUL));
      }
    }
  }

  /** Step 3 of generatePawnMoves, for one diagonal. */
  method AddDiagonalCapture(position: Position, moves: MoveList, isWhite: bool, from: int, target: int, enemyPieces: Bitboard)
    requires 0 <= from && enemyPieces == Friendly(position.Placement(), !isWhite)
    modifies moves
    ensures moves.items == old(moves.items) + DiagonalCapture(position.State(), isWhite, from, target)
  {
    var fromFile := from % 8;
    if 0 <= target < 64 {
      var targetFile := target % 8;
      if Abs(targetFile - fromFile) == 1 {
        if Bit(target) in enemyPieces {
          var captured := position.GetPieceAt(target);
          var captureRank := target / 8;
          if (isWhite && captureRank == 7) || (!isWhite && captureRank == 0) {
            AddPromotions(moves, from, target, captured, isWhite);
          } else {
            moves.Add(NewMove(from, target, captured));
          }
        }
      }
    }
  }

  /** Step 4 of generatePawnMoves, for one diagonal: the en-passant capture. */
  method AddEnPassant(position: Position, moves: MoveList, isWhite: bool, from: int, target: int)
    requires 0 <= from
    modifies moves
    ensures moves.items == old(moves.items) + EnPassantCapture(position.State(), isWhite, from, target)
  {
    var epSquare := position.enPassantSquare;
    var epFile := JavaRem(epSquare, 8);
    var fromFile := from % 8;
    if target == epSquare && Abs(fromFile - epFile) == 1 {
      var capturedPawnSquare := if isWhite then epSquare - 8 else epSquare + 8;
      var captured := position.GetPieceAt(capturedPawnSquare);
      var move := SetEnPassant(NewMove(from, epSquare, captured));
      moves.Add(move);
    }
  }

  /** The body of the pawn loop: steps 1 to 4 for the pawn on `from`. */
  method AddPawnMoves(position: Position, moves: MoveList, isWhite: bool, from: int, allPieces: Bitboard)
    requires 0 <= from && allPieces == AllPieces(position.Placement())
    modifies moves
    ensures moves.items == old(moves.items) + PawnMovesFrom(position.State(), isWhite, from)
  {
    ghost var b := position.State();
    ghost var left, right := LeftCapture(isWhite, from), RightCapture(isWhite, from);
    AddSinglePush(position, moves, isWhite, from, allPieces);
    AddDoublePush(position, moves, isWhite, from, allPieces);
    var enemyPieces := GetFriendlyPieces(position, !isWhite);
    AddDiagonalCapture(position, moves, isWhite, from, LeftCapture(isWhite, from), enemyPieces);
    AddDiagonalCapture(position, moves, isWhite, from, RightCapture(isWhite, from), enemyPieces);
    ghost var captures := moves.items;
    if position.enPassantSquare != -1 {
      AddEnPassant(position, moves, isWhite, from, LeftCapture(isWhite, from));
      AddEnPassant(position, moves, isWhite, from, RightCapture(isWhite, from));
      SeqAssociative(captures, EnPassantCapture(b, isWhite, from, left), EnPassantCapture(b, isWhite, from, right));
    }
    Regroup(old(moves.items), SinglePush(b, isWhite, from), DoublePush(b, isWhite, from),
            DiagonalCapture(b, isWhite, from, left), DiagonalCapture(b, isWhite, from, right),
            if b.enPassantSquare != -1 then EnPassantCapture(b, isWhite, from, left) + EnPassantCapture(b, isWhite, from, right) else []);
  }

  lemma Regroup(m: seq<Move>, a: seq<Move>, b: seq<Move>, c: seq<Move>, d: seq<Move>, e: seq<Move>)
    ensures ((((m + a) + b) + c) + d) + e == m + ((((a + b) + c) + d) + e)
  {
  }

  /** generatePawnMoves. */
  method GeneratePawnMoves(position: Position, moves: MoveList, isWhite: bool)
    modifies moves
    ensures moves.items == old(moves.items) + PawnMoves(position.State(), isWhite)
  {
    ghost var b := position.State();
    var pawns: Bitboard := if isWhite then position.whitePawn else position.blackPawn;
    var allPieces := GetAllPieces(position);
    ghost var start: Bitboard := pawns;
    while pawns != {}
      invariant moves.items + PawnMovesOf(b, isWhite, Squares(pawns)) == old(moves.items) + PawnMovesOf(b, isWhite, Squares(start))
      decreases |pawns|
    {
      var from := NumberOfTrailingZeros(pawns);
      ghost var current: Bitboard := pawns;
      pawns := pawns - {from};
      assert Squares(current) == [from] + Squares(pawns);
      ghost var before := moves.items;
      AddPawnMoves(position, moves, isWhite, from, allPieces);
      SeqAssociative(before, PawnMovesFrom(b, isWhite, from), PawnMovesOf(b, isWhite, Squares(pawns)));
    }
  }

  // ---------------------------------------------------------------------------
  // Sliding pieces

  /** The `while (true)` of generateSlidingMoves for one direction. */
  method AddRay(from: int, dir: int, moves: MoveList, position: Position, friendlyPieces: Bitboard, allPieces: Bitboard)
    requires dir != 0
    modifies moves
    ensures moves.items == old(moves.items) + Ray(position.Placement(), from, dir, from + dir, friendlyPieces, allPieces)
  {
    ghost var p := position.Placement();
    var to := from + dir;
    while true
      invariant moves.items + Ray(p, from, dir, to, friendlyPieces, allPieces) ==
                old(moves.items) + Ray(p, from, dir, from + dir, friendlyPieces, allPieces)
      decreases if dir > 0 then 64 - to else to + 1
    {
      if to < 0 || to >= 64 {
        break;
      }
      var toFile := to % 8;
      var prevFile := JavaRem(to - dir, 8);
      // the six wrap-around guards, one per sideways or diagonal direction
      var wraps := (dir == 1 && toFile != prevFile + 1) || (dir == -1 && toFile != prevFile - 1) ||
                   (dir == 9 && toFile != prevFile + 1) || (dir == 7 && toFile != prevFile - 1) ||
                   (dir == -7 && toFile != prevFile + 1) || (dir == -9 && toFile != prevFile - 1);
      assert wraps == Wraps(to, dir);
      if wraps {
        break;
      }
      if Bit(to) in friendlyPieces {
        break;
      }
      if Bit(to) in allPieces {
        var captured := position.GetPieceAt(to);
        moves.Add(NewMove(from, to, captured));
        break;
      }
      ghost var before := moves.items;
      moves.Add(NewMove(from, to, NUL));
      SeqAssociative(before, [NewMove(from, to, NUL)], Ray(p, from, dir, to + dir, friendlyPieces, allPieces));
      to := to + dir;
    }
  }

  /** generateSlidingMoves: the rays from `from` in the order of `directions`. */
  method GenerateSlidingMoves(from: int, moves: MoveList, position: Position, friendlyPieces: Bitboard,
                              allPieces: Bitboard, directions: seq<int>)
    requires 0 !in directions
    modifies moves
    ensures moves.items == old(moves.items) + SlideMovesFrom(position.Placement(), from, directions, friendlyPieces, allPieces)
  {
    ghost var p := position.Placement();
    for k := 0 to |directions|
      invariant moves.items + SlideMovesFrom(p, from, directions[k..], friendlyPieces, allPieces) ==
                old(moves.items) + SlideMovesFrom(p, from, directions, friendlyPieces, allPieces)
    {
      ghost var before := moves.items;
      AddRay(from, directions[k], moves, position, friendlyPieces, allPieces);
      assert directions[k..][1..] == directions[k + 1..];
      SeqAssociative(before, Ray(p, from, directions[k], from + directions[k], friendlyPieces, allPieces),
                     SlideMovesFrom(p, from, directions[k + 1..], friendlyPieces, allPieces));
    }
  }

  /** The loop shared by generateRookMoves, generateBishopMoves and generateQueenMoves. */
  method AddSliderMoves(position: Position, moves: MoveList, pieces: Bitboard, directions: seq<int>,
                        friendlyPieces: Bitboard, allPieces: Bitboard)
    requires 0 !in directions
    modifies moves
    ensures moves.items == old(moves.items) + SliderMoves(position.Placement(), Squares(pieces), directions, friendlyPieces, allPieces)
  {
    ghost var p := position.Placement();
    var remaining: Bitboard := pieces;
    while remaining != {}
      invariant moves.items + SliderMoves(p, Squares(remaining), directions, friendlyPieces, allPieces) ==
                old(moves.items) + SliderMoves(p, Squares(pieces), directions, friendlyPieces, allPieces)
      decreases |remaining|
    {
      var from := NumberOfTrailingZeros(remaining);
      ghost var current: Bitboard := remaining;
      remaining := remaining - {from};
      assert Squares(current) == [from] + Squares(remaining);
      ghost var before := moves.items;
      GenerateSlidingMoves(from, moves, position, friendlyPieces, allPieces, directions);
      SeqAssociative(before, SlideMovesFrom(p, from, directions, friendlyPieces, allPieces),
                     SliderMoves(p, Squares(remaining), directions, friendlyPieces, allPieces));
    }
  }

  /** generateRookMoves. */
  method GenerateRookMoves(position: Position, moves: MoveList, isWhite: bool)
    modifies moves
    ensures moves.items == old(moves.items) + RookMoves(position.State(), isWhite)
  {
    var rooks := if isWhite then position.whiteRook else position.blackRook;
    var friendlyPieces := GetFriendlyPieces(position, isWhite);
    var allPieces := GetAllPieces(position);
    AddSliderMoves(position, moves, rooks, [8, -8, 1, -1], friendlyPieces, allPieces);
  }

  /** generateBishopMoves. */
  method GenerateBishopMoves(position: Position, moves: MoveList, isWhite: bool)
    modifies moves
    ensures moves.items == old(moves.items) + BishopMoves(position.State(), isWhite)
  {
    var bishops := if isWhite then position.whiteBishop else position.blackBishop;
    var friendlyPieces := GetFriendlyPieces(position, isWhite);
    var allPieces := GetAllPieces(position);
    AddSliderMoves(position, moves, bishops, [9, 7, -7, -9], friendlyPieces, allPieces);
  }

  /** generateQueenMoves. */
  method GenerateQueenMoves(position: Position, moves: MoveList, isWhite: bool)
    modifies moves
    ensures moves.items == old(moves.items) + QueenMoves(position.State(), isWhite)
  {
    var queens := if isWhite then position.whiteQueen else position.blackQueen;
    var friendlyPieces := GetFriendlyPieces(position, isWhite);
    var allPieces := GetAllPieces(position);
    AddSliderMoves(position, moves, queens, [8, -8, 1, -1, 9, 7, -7, -9], friendlyPieces, allPieces);
  }

  // ---------------------------------------------------------------------------
  // Castling, all moves, check, legal moves

  /** generateCastlingMoves. */
  method GenerateCastlingMoves(position: Position, moves: MoveList, isWhite: bool)
    modifies moves
    ensures moves.items == old(moves.items) + CastlingMoves(position.State(), isWhite)
  {
    ghost var b := position.State();
    var allPieces := GetAllPieces(position);
    if isWhite {
      ghost var kingSide := CastleIf(b.whiteCanCastleKingside && 5 !in allPieces && 6 !in allPieces, 4, 6);
      ghost var queenSide := CastleIf(b.whiteCanCastleQueenside && 1 !in allPieces && 2 !in allPieces && 3 !in allPieces, 4, 2);
      if position.whiteCanCastleKingside {
        if Bit(5) !in allPieces && Bit(6) !in allPieces {
          moves.Add(SetCastling(NewMove(4, 6, NUL)));
        }
      }
      assert moves.items == old(moves.items) + kingSide;
      ghost var afterKingSide := moves.items;
      if position.whiteCanCastleQueenside {
        if Bit(1) !in allPieces && Bit(2) !in allPieces && Bit(3) !in allPieces {
          moves.Add(SetCastling(NewMove(4, 2, NUL)));
        }
      }
      assert moves.items == afterKingSide + queenSide;
      SeqAssociative(old(moves.items), kingSide, queenSide);
      assert position.State() == b;
    } else {
      ghost var kingSide := CastleIf(b.blackCanCastleKingside && 61 !in allPieces && 62 !in allPieces, 60, 62);
      ghost var queenSide := CastleIf(b.blackCanCastleQueenside && 57 !in allPieces && 58 !in allPieces && 59 !in allPieces, 60, 58);
      if position.blackCanCastleKingside {
        if Bit(61) !in allPieces && Bit(62) !in allPieces {
          moves.Add(SetCastling(NewMove(60, 62, NUL)));
        }
      }
      assert moves.items == old(moves.items) + kingSide;
      ghost var afterKingSide := moves.items;
      if position.blackCanCastleQueenside {
        if Bit(57) !in allPieces && Bit(58) !in allPieces && Bit(59) !in allPieces {
          moves.Add(SetCastling(NewMove(60, 58, NUL)));
        }
      }
      assert moves.items == afterKingSide + queenSide;
      SeqAssociative(old(moves.items), kingSide, queenSide);
      assert position.State() == b;
    }
  }

  /** generateMoves: every pseudo-legal move of the side to move, in the generators'
      order. */
  method GenerateMoves(tables: AttackTables, position: Position) returns (moves: MoveList)
    requires tables.Valid()
    ensures fresh(moves)
    ensures moves.items == PseudoLegalMoves(position.State())
  {
    ghost var b := position.State();
    moves := new MoveList();
    var isWhite := position.isWhiteTurn;
    GenerateKnightMoves(tables, position, moves, isWhite);
    assert moves.items == KnightMoves(b, isWhite);
    GenerateKingMoves(tables, position, moves, isWhite);
    GeneratePawnMoves(position, moves, isWhite);
    GenerateRookMoves(position, moves, isWhite);
    GenerateBishopMoves(position, moves, isWhite);
    GenerateQueenMoves(position, moves, isWhite);
    GenerateCastlingMoves(position, moves, isWhite);
    assert position.State() == b;
  }

  /** The scan of isKingInCheck over the opponent's moves: true at the first move
      landing on `square`. */
  method AnyMoveTo(items: seq<Move>, square: int) returns (found: bool)
    ensures found <==> Hits(items, square)
  {
    for i := 0 to |items|
      invariant forall j :: 0 <= j < i ==> items[j].to != square
    {
      if items[i].to == square {
        return true;
      }
    }
    return false;
  }

  /** Position.isKingInCheck: hand the turn to the other side, generate its moves, give the
      turn back, and look for a move onto the king's square. */
  method IsKingInCheck(tables: AttackTables, position: Position, isWhite: bool) returns (inCheck: bool)
    requires tables.Valid()
    modifies position`isWhiteTurn
    ensures position.State() == old(position.State())
    ensures inCheck == InCheck(position.State(), isWhite)
  {
    ghost var b := position.State();
    var king := if isWhite then position.whiteKing else position.blackKing;
    if king == {} {
      InCheckFrom(b, isWhite);
      return false;
    }
    var kingSquare := NumberOfTrailingZeros(king);
    var opponentMoves := OpponentMoves(tables, position, isWhite);
    inCheck := AnyMoveTo(opponentMoves, kingSquare);
    InCheckFrom(b, isWhite);
  }

  /** Steps 2 to 4 of isKingInCheck: the turn is handed to the other side, its moves
      generated, and the turn restored. */
  method OpponentMoves(tables: AttackTables, position: Position, isWhite: bool) returns (moves: seq<Move>)
    requires tables.Valid()
    modifies position`isWhiteTurn
    ensures position.State() == old(position.State())
    ensures moves == Attacks(position.State(), isWhite)
  {
    ghost var b := position.State();
    var originalTurn := position.isWhiteTurn;
    position.isWhiteTurn := !isWhite;
    assert position.State() == b.(isWhiteTurn := !isWhite);
    var opponentMoves := GenerateMoves(tables, position);
    position.isWhiteTurn := originalTurn;
    assert position.State() == b;
    moves := opponentMoves.items;
  }

  /** Unfolds InCheck once the opponent's moves are known. */
  lemma InCheckFrom(b: Board, white: bool)
    ensures InCheck(b, white) <==>
      Kings(b.pieces, white) != {} && Hits(Attacks(b, white), NumberOfTrailingZeros(Kings(b.pieces, white)))
  {
  }

  /** One turn of generateLegalMoves' loop: make the move, keep it when the mover's king
      is not in check, unmake it. */
  method TryMove(tables: AttackTables, position: Position, move: Move, isWhite: bool, legalMoves: MoveList)
    requires tables.Valid()
    modifies position, legalMoves
    ensures position.State() == FilterStep(old(position.State()), isWhite, move).0
    ensures legalMoves.items == old(legalMoves.items) + FilterStep(old(position.State()), isWhite, move).1
  {
    var saved := position.MakeMove(move);
    var check := IsKingInCheck(tables, position, isWhite);
    if !check {
      legalMoves.Add(move);
    }
    position.UnmakeMove(move, saved);
  }

  /** Step 2 of generateLegalMoves: each move of the list made, tested and unmade in
      turn. */
  method FilterLegal(tables: AttackTables, position: Position, items: seq<Move>, isWhite: bool)
    returns (legalMoves: MoveList)
    requires tables.Valid()
    modifies position
    ensures fresh(legalMoves)
    ensures position.State() == LegalFilter(old(position.State()), isWhite, items).0
    ensures legalMoves.items == LegalFilter(old(position.State()), isWhite, items).1
  {
    ghost var b := position.State();
    legalMoves := new MoveList();
    for i := 0 to |items|
      invariant fresh(legalMoves)
      invariant LegalFilter(position.State(), isWhite, items[i..]).0 == LegalFilter(b, isWhite, items).0
      invariant legalMoves.items + LegalFilter(position.State(), isWhite, items[i..]).1 == LegalFilter(b, isWhite, items).1
    {
      ghost var current := position.State();
      ghost var kept := legalMoves.items;
      TryMove(tables, position, items[i], isWhite, legalMoves);
      assert items[i..][1..] == items[i + 1..];
      ghost var step := FilterStep(current, isWhite, items[i]);
      ghost var rest := LegalFilter(step.0, isWhite, items[i + 1..]);
      SeqAssociative(kept, step.1, rest.1);
    }
    assert items[|items|..] == [];
  }

  /** generateLegalMoves: make each pseudo-legal move, keep it when the mover's king is
      not in check, and unmake it. The position and the kept moves are those of the
      make / test / unmake filter; on a well-formed position the position comes back as
      it was and the kept moves are the pseudo-legal moves that do not leave the king in
      check, in their original order. */
  method GenerateLegalMoves(tables: AttackTables, position: Position) returns (legalMoves: MoveList)
    requires tables.Valid()
    modifies position
    ensures fresh(legalMoves)
    ensures position.State() == LegalFilter(old(position.State()), old(position.isWhiteTurn), PseudoLegalMoves(old(position.State()))).0
    ensures legalMoves.items == LegalFilter(old(position.State()), old(position.isWhiteTurn), PseudoLegalMoves(old(position.State()))).1
    ensures WellFormed(old(position.State())) ==>
      position.State() == old(position.State()) && legalMoves.items == LegalMoves(old(position.State()))
  {
    ghost var b := position.State();
    var pseudoLegalMoves := GenerateMoves(tables, position);
    var isWhite := position.isWhiteTurn;
    legalMoves := FilterLegal(tables, position, pseudoLegalMoves.items, isWhite);
    if WellFormed(b) {
      LegalMovesAre(b);
    }
  }
}
