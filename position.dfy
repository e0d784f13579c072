/** Position.java as a class whose fields are updated in place. Every method is
    proved against the value-level definitions of module Boards (getPieceAt,
    makeMove, unmakeMove) and module Fen (the constructor's parse, toFEN). */
module Positions {
  import opened Bitboards
  import opened JavaLib
  import opened Moves
  import opened GameStates
  import opened Boards
  import opened Fen

  class Position {
    var whitePawn: Bitboard
    var whiteKing: Bitboard
    var whiteQueen: Bitboard
    var whiteKnight: Bitboard
    var whiteBishop: Bitboard
    var whiteRook: Bitboard
    var blackPawn: Bitboard
    var blackKing: Bitboard
    var blackQueen: Bitboard
    var blackKnight: Bitboard
    var blackBishop: Bitboard
    var blackRook: Bitboard

    var isWhiteTurn: bool
    var halfMoveCount: int

    var whiteCanCastleKingside: bool
    var whiteCanCastleQueenside: bool
    var blackCanCastleKingside: bool
    var blackCanCastleQueenside: bool

    var enPassantSquare: int

    /** The twelve bitboards as a value. */
    function Placement(): Pieces
      reads this`whitePawn, this`whiteKing, this`whiteQueen, this`whiteKnight, this`whiteBishop, this`whiteRook
      reads this`blackPawn, this`blackKing, this`blackQueen, this`blackKnight, this`blackBishop, this`blackRook
    {
      Pieces(whitePawn, whiteKing, whiteQueen, whiteKnight, whiteBishop, whiteRook,
             blackPawn, blackKing, blackQueen, blackKnight, blackBishop, blackRook)
    }

    /** `new GameState(this)`: the six fields makeMove saves for unmakeMove. */
    function Saved(): GameState
      reads this`whiteCanCastleKingside, this`whiteCanCastleQueenside
      reads this`blackCanCastleKingside, this`blackCanCastleQueenside
      reads this`enPassantSquare, this`halfMoveCount
    {
      GameState(whiteCanCastleKingside, whiteCanCastleQueenside,
                blackCanCastleKingside, blackCanCastleQueenside,
                enPassantSquare, halfMoveCount)
    }

    /** Every field as a value. */
    function State(): Board
      reads this
    {
      Board(Placement(), isWhiteTurn, halfMoveCount,
            whiteCanCastleKingside, whiteCanCastleQueenside,
            blackCanCastleKingside, blackCanCastleQueenside, enPassantSquare)
    }

    /** Builds the position a FEN string describes: side, castling rights, en-passant
        square and halfmove clock from fields 1 to 4, then the pieces rank by rank. */
    constructor(fen: string)
      requires FieldsReadable(Split(fen, ' '))
      ensures State() == ParseFields(Split(fen, ' '))
    {
      var parts := Split(fen, ' ');
      whitePawn, whiteKing, whiteQueen, whiteKnight, whiteBishop, whiteRook := {}, {}, {}, {}, {}, {};
      blackPawn, blackKing, blackQueen, blackKnight, blackBishop, blackRook := {}, {}, {}, {}, {}, {};
      new;
      ReadFields(parts);
      var ranks := Split(parts[0], '/');
      ghost var fields := State();
      PlacePieces(ranks);
      assert State() == fields.(pieces := Placement());
    }

    /** The constructor's reading of fields 1 to 4: side to move, castling rights,
        en-passant square and halfmove clock. */
    method ReadFields(parts: seq<string>)
      requires FieldsReadable(parts)
      modifies this`isWhiteTurn, this`halfMoveCount, this`enPassantSquare
      modifies this`whiteCanCastleKingside, this`whiteCanCastleQueenside
      modifies this`blackCanCastleKingside, this`blackCanCastleQueenside
      ensures isWhiteTurn == (parts[1] == "w") && halfMoveCount == ParseInt(parts[4])
      ensures whiteCanCastleKingside == ('K' in parts[2]) && whiteCanCastleQueenside == ('Q' in parts[2])
      ensures blackCanCastleKingside == ('k' in parts[2]) && blackCanCastleQueenside == ('q' in parts[2])
      ensures enPassantSquare == EnPassantField(parts[3])
    {
      isWhiteTurn := parts[1] == "w";
      whiteCanCastleKingside := 'K' in parts[2];
      whiteCanCastleQueenside := 'Q' in parts[2];
      blackCanCastleKingside := 'k' in parts[2];
      blackCanCastleQueenside := 'q' in parts[2];
      if '-' in parts[3] {
        enPassantSquare := -1;
      } else {
        var file := parts[3][0] as int - 'a' as int;
        var rank := parts[3][1] as int - '1' as int;
        enPassantSquare := rank * 8 + file;
      }
      halfMoveCount := ParseInt(parts[4]);
    }

    /** The constructor's placement loop: rank text `rankIndex` (0 is the eighth rank)
        fills the squares from (7 - rankIndex) * 8 on. */
    method PlacePieces(ranks: seq<string>)
      requires |ranks| >= 8
      modifies this`whitePawn, this`whiteKing, this`whiteQueen, this`whiteKnight, this`whiteBishop, this`whiteRook
      modifies this`blackPawn, this`blackKing, this`blackQueen, this`blackKnight, this`blackBishop, this`blackRook
      ensures Placement() == PlaceRanks(old(Placement()), ranks, 0)
    {
      ghost var start := Placement();
      var rankIndex := 0;
      while rankIndex < 8
        invariant 0 <= rankIndex <= 8
        invariant PlaceRanks(Placement(), ranks, rankIndex) == PlaceRanks(start, ranks, 0)
      {
        var rank := ranks[rankIndex];
        var square := (7 - rankIndex) * 8;
        PlaceRankPieces(rank, square);
        rankIndex := rankIndex + 1;
      }
    }

    /** One rank text of the constructor's placement loop: a digit skips that many
        squares, a letter places its piece and moves on one square. */
    method PlaceRankPieces(rank: string, square: int)
      modifies this`whitePawn, this`whiteKing, this`whiteQueen, this`whiteKnight, this`whiteBishop, this`whiteRook
      modifies this`blackPawn, this`blackKing, this`blackQueen, this`blackKnight, this`blackBishop, this`blackRook
      ensures Placement() == PlaceRank(old(Placement()), rank, square)
    {
      ghost var start := Placement();
      var next := square;
      var i := 0;
      while i < |rank|
        invariant 0 <= i <= |rank|
        invariant PlaceRank(Placement(), rank[i..], next) == PlaceRank(start, rank, square)
      {
        var c := rank[i];
        assert rank[i..][1..] == rank[i + 1..];
        if IsDigit(c) {
          next := next + (c as int - '0' as int);
        } else {
          AddPiece(next, c);
          next := next + 1;
        }
        i := i + 1;
      }
    }

    /** getPieceAt: the first bitboard, in the order P p R r N n B b K k Q q, holding
        the square's bit, or '.'. */
    method GetPieceAt(square: int) returns (c: char)
      ensures c == PieceAt(Placement(), square)
    {
      var mask := Bit(square);
      if mask in whitePawn { return 'P'; }
      if mask in blackPawn { return 'p'; }
      if mask in whiteRook { return 'R'; }
      if mask in blackRook { return 'r'; }
      if mask in whiteKnight { return 'N'; }
      if mask in blackKnight { return 'n'; }
      if mask in whiteBishop { return 'B'; }
      if mask in blackBishop { return 'b'; }
      if mask in whiteKing { return 'K'; }
      if mask in blackKing { return 'k'; }
      if mask in whiteQueen { return 'Q'; }
      if mask in blackQueen { return 'q'; }
      return EMPTY;
    }

    /** removePiece: clears the square's bit in the letter's bitboard; a character that
        is not a piece letter changes nothing. */
    method RemovePiece(square: int, piece: char)
      modifies this`whitePawn, this`whiteKing, this`whiteQueen, this`whiteKnight, this`whiteBishop, this`whiteRook
      modifies this`blackPawn, this`blackKing, this`blackQueen, this`blackKnight, this`blackBishop, this`blackRook
      ensures Placement() == Boards.RemovePiece(old(Placement()), square, piece)
    {
      var mask := Bit(square);
      match piece {
        case 'P' => whitePawn := whitePawn - {mask};
        case 'p' => blackPawn := blackPawn - {mask};
        case 'N' => whiteKnight := whiteKnight - {mask};
        case 'n' => blackKnight := blackKnight - {mask};
        case 'R' => whiteRook := whiteRook - {mask};
        case 'r' => blackRook := blackRook - {mask};
        case 'B' => whiteBishop := whiteBishop - {mask};
        case 'b' => blackBishop := blackBishop - {mask};
        case 'K' => whiteKing := whiteKing - {mask};
        case 'k' => blackKing := blackKing - {mask};
        case 'Q' => whiteQueen := whiteQueen - {mask};
        case 'q' => blackQueen := blackQueen - {mask};
        case _ =>
      }
    }

    /** addPiece: sets the square's bit in the letter's bitboard; a character that is
        not a piece letter changes nothing. */
    method AddPiece(square: int, piece: char)
      modifies this`whitePawn, this`whiteKing, this`whiteQueen, this`whiteKnight, this`whiteBishop, this`whiteRook
      modifies this`blackPawn, this`blackKing, this`blackQueen, this`blackKnight, this`blackBishop, this`blackRook
      ensures Placement() == Boards.AddPiece(old(Placement()), square, piece)
    {
      var mask := Bit(square);
      match piece {
        case 'P' => whitePawn := whitePawn + {mask};
        case 'p' => blackPawn := blackPawn + {mask};
        case 'N' => whiteKnight := whiteKnight + {mask};
        case 'n' => blackKnight := blackKnight + {mask};
        case 'R' => whiteRook := whiteRook + {mask};
        case 'r' => blackRook := blackRook + {mask};
        case 'B' => whiteBishop := whiteBishop + {mask};
        case 'b' => blackBishop := blackBishop + {mask};
        case 'K' => whiteKing := whiteKing + {mask};
        case 'k' => blackKing := blackKing + {mask};
        case 'Q' => whiteQueen := whiteQueen + {mask};
        case 'q' => blackQueen := blackQueen + {mask};
        case _ =>
      }
    }

    /** handleCastlingRookMove: h1->f1, a1->d1, h8->f8, a8->d8 for the four castling
        king moves; nothing for any other pair of squares. */
    method HandleCastlingRookMove(kingFrom: int, kingTo: int)
      modifies this`whiteRook, this`blackRook
      ensures Placement() == CastleRook(old(Placement()), kingFrom, kingTo)
    {
      if kingFrom == 4 && kingTo == 6 {
        whiteRook := whiteRook - {7} + {5};
      }
      if kingFrom == 4 && kingTo == 2 {
        whiteRook := whiteRook - {0} + {3};
      }
      if kingFrom == 60 && kingTo == 62 {
        blackRook := blackRook - {63} + {61};
      }
      if kingFrom == 60 && kingTo == 58 {
        blackRook := blackRook - {56} + {59};
      }
    }

    /** undoCastlingRookMove: f1->h1, d1->a1, f8->h8, d8->a8. */
    method UndoCastlingRookMove(kingFrom: int, kingTo: int)
      modifies this`whiteRook, this`blackRook
      ensures Placement() == UncastleRook(old(Placement()), kingFrom, kingTo)
    {
      if kingFrom == 4 && kingTo == 6 {
        whiteRook := whiteRook - {5} + {7};
      }
      if kingFrom == 4 && kingTo == 2 {
        whiteRook := whiteRook - {3} + {0};
      }
      if kingFrom == 60 && kingTo == 62 {
        blackRook := blackRook - {61} + {63};
      }
      if kingFrom == 60 && kingTo == 58 {
        blackRook := blackRook - {59} + {56};
      }
    }

    /** Steps 2 to 6 of makeMove: lift the mover, remove a real capture, drop the mover
        or the promotion piece on the target, move a castling rook. */
    method MovePieces(move: Move) returns (piece: char)
      modifies this`whitePawn, this`whiteKing, this`whiteQueen, this`whiteKnight, this`whiteBishop, this`whiteRook
      modifies this`blackPawn, this`blackKing, this`blackQueen, this`blackKnight, this`blackBishop, this`blackRook
      ensures piece == PieceAt(old(State()).pieces, move.from)
      ensures Placement() == MakePieces(old(State()).pieces, old(State()).isWhiteTurn, move)
    {
      ghost var white := isWhiteTurn;
      piece := GetPieceAt(move.from);
      RemovePiece(move.from, piece);
      ghost var p1 := Placement();
      if move.capturedPiece != NUL && move.capturedPiece != EMPTY {
        if move.isEnPassant {
          var capturedSquare := if isWhiteTurn then move.to - 8 else move.to + 8;
          RemovePiece(capturedSquare, move.capturedPiece);
        } else {
          RemovePiece(move.to, move.capturedPiece);
        }
      }
      assert Placement() == if IsCapture(move) then Boards.RemovePiece(p1, CaptureSquare(white, move), move.capturedPiece) else p1;
      if move.isPromotion {
        AddPiece(move.to, move.promotionPiece);
      } else {
        AddPiece(move.to, piece);
      }
      if move.isCastling {
        HandleCastlingRookMove(move.from, move.to);
      }
    }

    /** Step 7 of makeMove: a king move clears both of its side's rights, and a move
        from a1, h1, a8 or h8 clears the right of the rook that starts there. */
    method UpdateCastlingRights(piece: char, from: int)
      modifies this`whiteCanCastleKingside, this`whiteCanCastleQueenside
      modifies this`blackCanCastleKingside, this`blackCanCastleQueenside
      ensures whiteCanCastleKingside == (old(whiteCanCastleKingside) && piece != 'K' && from != 7)
      ensures whiteCanCastleQueenside == (old(whiteCanCastleQueenside) && piece != 'K' && from != 0)
      ensures blackCanCastleKingside == (old(blackCanCastleKingside) && piece != 'k' && from != 63)
      ensures blackCanCastleQueenside == (old(blackCanCastleQueenside) && piece != 'k' && from != 56)
    {
      if piece == 'K' {
        whiteCanCastleKingside := false;
        whiteCanCastleQueenside := false;
      } else if piece == 'k' {
        blackCanCastleKingside := false;
        blackCanCastleQueenside := false;
      }
      if from == 0 { whiteCanCastleQueenside := false; }
      if from == 7 { whiteCanCastleKingside := false; }
      if from == 56 { blackCanCastleQueenside := false; }
      if from == 63 { blackCanCastleKingside := false; }
    }

    /** Step 8 of makeMove: a pawn's double step leaves the square it passed over as
        the en-passant square; any other move clears it. */
    method UpdateEnPassantSquare(piece: char, move: Move)
      modifies this`enPassantSquare
      ensures enPassantSquare ==
        if piece == 'P' && move.to - move.from == 16 then move.from + 8
        else if piece == 'p' && move.from - move.to == 16 then move.from - 8
        else -1
    {
      if piece == 'P' && move.to - move.from == 16 {
        enPassantSquare := move.from + 8;
      } else if piece == 'p' && move.from - move.to == 16 {
        enPassantSquare := move.from - 8;
      } else {
        enPassantSquare := -1;
      }
    }

    /** Step 9 of makeMove: a recorded capture (any captured value but '\0') or a pawn
        move resets the halfmove clock; any other move advances it. */
    method UpdateHalfMoveCount(piece: char, move: Move)
      modifies this`halfMoveCount
      ensures halfMoveCount ==
        if move.capturedPiece != NUL || piece == 'P' || piece == 'p' then 0 else old(halfMoveCount) + 1
    {
      if move.capturedPiece != NUL || piece == 'P' || piece == 'p' {
        halfMoveCount := 0;
      } else {
        halfMoveCount := halfMoveCount + 1;
      }
    }

    /** makeMove: saves the snapshot, moves the pieces, updates the castling rights,
        the en-passant square and the halfmove clock, and passes the turn. */
    method MakeMove(move: Move) returns (savedState: GameState)
      modifies this
      ensures State() == Make(old(State()), move)
      ensures savedState == Snapshot(old(State()))
    {
      ghost var b := State();
      savedState := Saved();
      var piece := MovePieces(move);
      ghost var placed := Placement();
      assert placed == MakePieces(b.pieces, b.isWhiteTurn, move);
      UpdateCastlingRights(piece, move.from);
      assert Placement() == placed;
      UpdateEnPassantSquare(piece, move);
      assert Placement() == placed;
      UpdateHalfMoveCount(piece, move);
      assert Placement() == placed;
      isWhiteTurn := !isWhiteTurn;
      assert State().pieces == placed;
      MakeFields(b, move, piece, State());
    }

    /** unmakeMove: flips the side back, returns the mover (or a pawn, after a promotion)
        to its origin, restores a real capture, moves a castling rook home and copies the
        snapshot back. After makeMove of a move that is Reversible on the position, it
        gives back exactly the position makeMove started from (Boards.MakeUnmakeRoundTrip). */
    method UnmakeMove(move: Move, savedState: GameState)
      modifies this
      ensures State() == Unmake(old(State()), move, savedState)
    {
      ghost var after := State();
      isWhiteTurn := !isWhiteTurn;
      UnmovePieces(move);
      ghost var placed := Placement();
      assert placed == UnmakePieces(after.pieces, !after.isWhiteTurn, move);
      RestoreState(savedState);
      assert Placement() == placed;
    }

    /** Step 6 of unmakeMove: the castling rights, en-passant square and halfmove clock
        copied back from the snapshot. */
    method RestoreState(savedState: GameState)
      modifies this`whiteCanCastleKingside, this`whiteCanCastleQueenside
      modifies this`blackCanCastleKingside, this`blackCanCastleQueenside
      modifies this`enPassantSquare, this`halfMoveCount
      ensures Saved() == savedState
    {
      whiteCanCastleKingside := savedState.whiteCanCastleKingside;
      whiteCanCastleQueenside := savedState.whiteCanCastleQueenside;
      blackCanCastleKingside := savedState.blackCanCastleKingside;
      blackCanCastleQueenside := savedState.blackCanCastleQueenside;
      enPassantSquare := savedState.enPassantSquare;
      halfMoveCount := savedState.halfMoveCount;
    }

    /** Steps 2 to 5 of unmakeMove, run after the side is flipped back: lift the piece on
        the target, put it (or a pawn of the side to move, after a promotion) on the
        origin, restore a real capture, move a castling rook home. */
    method UnmovePieces(move: Move)
      modifies this`whitePawn, this`whiteKing, this`whiteQueen, this`whiteKnight, this`whiteBishop, this`whiteRook
      modifies this`blackPawn, this`blackKing, this`blackQueen, this`blackKnight, this`blackBishop, this`blackRook
      ensures Placement() == UnmakePieces(old(Placement()), isWhiteTurn, move)
    {
      ghost var white := isWhiteTurn;
      var piece := GetPieceAt(move.to);
      if move.isPromotion {
        RemovePiece(move.to, piece);
        var originalPawn := if isWhiteTurn then 'P' else 'p';
        AddPiece(move.from, originalPawn);
      } else {
        RemovePiece(move.to, piece);
        AddPiece(move.from, piece);
      }
      ghost var p2 := Placement();
      if move.capturedPiece != NUL && move.capturedPiece != EMPTY {
        if move.isEnPassant {
          var capturedSquare := if isWhiteTurn then move.to - 8 else move.to + 8;
          AddPiece(capturedSquare, move.capturedPiece);
        } else {
          AddPiece(move.to, move.capturedPiece);
        }
      }
      assert Placement() == if IsCapture(move) then Boards.AddPiece(p2, CaptureSquare(white, move), move.capturedPiece) else p2;
      if move.isCastling {
        UndoCastlingRookMove(move.from, move.to);
      }
    }

    /** toFEN: the placement rank by rank from the eighth, then side, castling
        rights, en-passant square, halfmove clock and a fullmove number of 1. The
        numbered steps of the source are the helper methods below. */
    method ToFEN() returns (fen: string)
      ensures fen == FenString(State())
    {
      fen := WritePlacement();
      fen := fen + (if isWhiteTurn then " w " else " b ");
      var castling := WriteCastling();
      fen := fen + castling + " ";
      var enPassant := WriteEnPassant();
      ghost var beforeEnPassant := fen;
      fen := fen + enPassant;
      Associative(beforeEnPassant, EnPassantText(enPassantSquare), " ");
      fen := fen + IntToString(halfMoveCount) + " ";
      fen := fen + "1";
    }

    /** Step 1 of toFEN: the eight ranks from the eighth down, '/' between them. */
    method WritePlacement() returns (fen: string)
      ensures fen == PlacementText(Cells(Placement()), 7)
    {
      ghost var cells := Cells(Placement());
      ghost var goal := PlacementText(cells, 7);
      fen := "";
      var rank := 7;
      while rank >= 0
        invariant -1 <= rank <= 7
        invariant fen + PlacementText(cells, rank) == goal
      {
        var text := WriteRank(rank);
        ghost var slash := if rank > 0 then "/" else "";
        ghost var start := fen;
        fen := fen + text;
        ghost var middle := fen;
        if rank > 0 {
          fen := fen + "/";
        } else {
          assert fen == middle + slash;
        }
        Associative(start, text, slash);
        assert PlacementText(cells, rank) == (text + slash) + PlacementText(cells, rank - 1);
        Associative(start, text + slash, PlacementText(cells, rank - 1));
        rank := rank - 1;
      }
      assert PlacementText(cells, -1) == "";
    }

    /** One rank of step 1: piece letters, with each run of empty squares as its
        length in digits. */
    method WriteRank(rank: int) returns (text: string)
      requires 0 <= rank < 8
      ensures text == RankText(Cells(Placement()), rank, 0, 0)
    {
      ghost var cells := Cells(Placement());
      text := "";
      var emptyCount := 0;
      var file := 0;
      while file < 8
        invariant 0 <= file <= 8
        invariant text + RankText(cells, rank, file, emptyCount) == RankText(cells, rank, 0, 0)
      {
        var square := rank * 8 + file;
        var piece := GetPieceAt(square);
        CellAt(Placement(), square);
        if piece == EMPTY {
          assert RankText(cells, rank, file, emptyCount) == RankText(cells, rank, file + 1, emptyCount + 1);
          emptyCount := emptyCount + 1;
        } else {
          ghost var rest := RankText(cells, rank, file + 1, 0);
          ghost var run := EmptyRun(emptyCount);
          assert RankText(cells, rank, file, emptyCount) == (run + [piece]) + rest;
          PieceStep(text, run, piece, rest, RankText(cells, rank, 0, 0));
          ghost var before := text;
          if emptyCount > 0 {
            text := text + IntToString(emptyCount);
            emptyCount := 0;
          } else {
            assert text == before + run;
          }
          text := text + [piece];
        }
        file := file + 1;
      }
      ghost var before := text;
      if emptyCount > 0 {
        text := text + IntToString(emptyCount);
      } else {
        assert text == before + EmptyRun(emptyCount);
      }
    }

    /** Step 3 of toFEN: KQkq for the rights held, "-" for none. */
    method WriteCastling() returns (text: string)
      ensures text == CastlingText(State())
    {
      var castling := "";
      if whiteCanCastleKingside { castling := castling + "K"; }
      if whiteCanCastleQueenside { castling := castling + "Q"; }
      if blackCanCastleKingside { castling := castling + "k"; }
      if blackCanCastleQueenside { castling := castling + "q"; }
      text := if castling == "" then "-" else castling;
    }

    /** Step 4 of toFEN: the en-passant square in algebraic notation, or "-". */
    method WriteEnPassant() returns (text: string)
      ensures text == EnPassantText(enPassantSquare) + " "
    {
      if enPassantSquare == -1 {
        text := "- ";
      } else {
        var file := JavaRem(enPassantSquare, 8);
        var rank := JavaDiv(enPassantSquare, 8);
        text := [('a' as int + file) as char] + IntToString(rank + 1) + " ";
      }
    }
  }
}
