/** The state of Position.java as a value: twelve piece bitboards, side to
    move, four castling flags, en-passant square and halfmove clock; getPieceAt,
    addPiece/removePiece, the castling rook helpers, makeMove and unmakeMove as
    functions on that value, and the proof that unmakeMove undoes makeMove.
    The class Positions.Position runs the same steps in place. */
module Boards {
  import opened Bitboards
  import opened Moves
  import opened GameStates

  /** The twelve bitboards, named as the fields of Position.java. */
  datatype Pieces = Pieces(
    whitePawn: Bitboard, whiteKing: Bitboard, whiteQueen: Bitboard,
    whiteKnight: Bitboard, whiteBishop: Bitboard, whiteRook: Bitboard,
    blackPawn: Bitboard, blackKing: Bitboard, blackQueen: Bitboard,
    blackKnight: Bitboard, blackBishop: Bitboard, blackRook: Bitboard)

  /** Every field of a Position. */
  datatype Board = Board(
    pieces: Pieces,
    isWhiteTurn: bool,
    halfMoveCount: int,
    whiteCanCastleKingside: bool,
    whiteCanCastleQueenside: bool,
    blackCanCastleKingside: bool,
    blackCanCastleQueenside: bool,
    enPassantSquare: int)

  const NoPieces := Pieces({}, {}, {}, {}, {}, {}, {}, {}, {}, {}, {}, {})

  /** The letters the switch statements of addPiece and removePiece know. */
  predicate IsPieceLetter(c: char)
  {
    IsWhiteLetter(c) || IsBlackLetter(c)
  }

  predicate IsWhiteLetter(c: char)
  {
    c == 'P' || c == 'N' || c == 'B' || c == 'R' || c == 'Q' || c == 'K'
  }

  predicate IsBlackLetter(c: char)
  {
    c == 'p' || c == 'n' || c == 'b' || c == 'r' || c == 'q' || c == 'k'
  }

  /** The bitboard a piece letter selects; no bitboard (empty) for any other character. */
  function Bits(p: Pieces, c: char): Bitboard
  {
    match c
    case 'P' => p.whitePawn
    case 'N' => p.whiteKnight
    case 'B' => p.whiteBishop
    case 'R' => p.whiteRook
    case 'Q' => p.whiteQueen
    case 'K' => p.whiteKing
    case 'p' => p.blackPawn
    case 'n' => p.blackKnight
    case 'b' => p.blackBishop
    case 'r' => p.blackRook
    case 'q' => p.blackQueen
    case 'k' => p.blackKing
    case _ => {}
  }

  /** Replace the bitboard a letter selects; any other character changes nothing. */
  function WithBits(p: Pieces, c: char, s: Bitboard): Pieces
  {
    match c
    case 'P' => p.(whitePawn := s)
    case 'N' => p.(whiteKnight := s)
    case 'B' => p.(whiteBishop := s)
    case 'R' => p.(whiteRook := s)
    case 'Q' => p.(whiteQueen := s)
    case 'K' => p.(whiteKing := s)
    case 'p' => p.(blackPawn := s)
    case 'n' => p.(blackKnight := s)
    case 'b' => p.(blackBishop := s)
    case 'r' => p.(blackRook := s)
    case 'q' => p.(blackQueen := s)
    case 'k' => p.(blackKing := s)
    case _ => p
  }

  /** The bit `1L << square` stands for: Java keeps only the low six bits of the shift distance. */
  function Bit(square: int): Square
  {
    square % 64
  }

  /** Whether some bitboard holds the square. */
  predicate Occupied(p: Pieces, sq: Square)
  {
    sq in p.whitePawn || sq in p.blackPawn || sq in p.whiteRook || sq in p.blackRook ||
    sq in p.whiteKnight || sq in p.blackKnight || sq in p.whiteBishop || sq in p.blackBishop ||
    sq in p.whiteKing || sq in p.blackKing || sq in p.whiteQueen || sq in p.blackQueen
  }

  /** getPieceAt: the letter of the first bitboard, in the order P p R r N n B b K k Q q,
      that holds the square; '.' when none does. */
  function PieceAt(p: Pieces, square: int): (c: char)
    ensures c == EMPTY <==> !Occupied(p, Bit(square))
    ensures c != EMPTY ==> IsPieceLetter(c) && Bit(square) in Bits(p, c)
  {
    var sq := Bit(square);
    if sq in p.whitePawn then 'P'
    else if sq in p.blackPawn then 'p'
    else if sq in p.whiteRook then 'R'
    else if sq in p.blackRook then 'r'
    else if sq in p.whiteKnight then 'N'
    else if sq in p.blackKnight then 'n'
    else if sq in p.whiteBishop then 'B'
    else if sq in p.blackBishop then 'b'
    else if sq in p.whiteKing then 'K'
    else if sq in p.blackKing then 'k'
    else if sq in p.whiteQueen then 'Q'
    else if sq in p.blackQueen then 'q'
    else '.'
  }

  /** addPiece: set the square's bit in the letter's bitboard. */
  function AddPiece(p: Pieces, square: int, c: char): Pieces
  {
    WithBits(p, c, Bits(p, c) + {Bit(square)})
  }

  /** removePiece: clear the square's bit in the letter's bitboard. */
  function RemovePiece(p: Pieces, square: int, c: char): Pieces
  {
    WithBits(p, c, Bits(p, c) - {Bit(square)})
  }

  /** No square lies in two bitboards. */
  ghost predicate Disjoint(p: Pieces)
  {
    forall sq: Square, c: char :: IsPieceLetter(c) && sq in Bits(p, c) ==> PieceAt(p, sq) == c
  }

  /** The board as 64 cells, a1 first, each holding getPieceAt of its square. */
  function Cells(p: Pieces): (cells: seq<char>)
    ensures |cells| == 64
  {
    CellsBelow(p, 64)
  }

  /** The cells of squares 0 to n - 1. */
  function CellsBelow(p: Pieces, n: nat): (cells: seq<char>)
    ensures |cells| == n
  {
    if n == 0 then [] else CellsBelow(p, n - 1) + [PieceAt(p, n - 1)]
  }

  lemma {:induction false} CellsBelowAt(p: Pieces, n: nat)
    ensures forall sq :: 0 <= sq < n ==> CellsBelow(p, n)[sq] == PieceAt(p, sq)
  {
    if n > 0 {
      CellsBelowAt(p, n - 1);
    }
  }

  /** The board with no pieces: disjoint, every cell empty. */
  lemma NoPiecesEmpty()
    ensures Disjoint(NoPieces)
    ensures forall sq :: 0 <= sq < 64 ==> Cells(NoPieces)[sq] == EMPTY
  {
    CellsAt(NoPieces);
  }

  /** Cell `sq` holds getPieceAt(sq). */
  lemma CellsAt(p: Pieces)
    ensures forall sq :: 0 <= sq < 64 ==> Cells(p)[sq] == PieceAt(p, sq)
  {
    CellsBelowAt(p, 64);
  }

  /** One cell of the board picture. */
  lemma CellAt(p: Pieces, sq: int)
    requires 0 <= sq < 64
    ensures Cells(p)[sq] == PieceAt(p, sq)
  {
    CellsAt(p);
  }

  /** What a cell holds after addPiece of `c` on an empty square. */
  function Placed(c: char): char
  {
    if IsPieceLetter(c) then c else EMPTY
  }

  // ---------------------------------------------------------------------------
  // getPieceAt on disjoint bitboards

  lemma BitsOfWith(p: Pieces, c: char, s: Bitboard, d: char)
    requires IsPieceLetter(c) && IsPieceLetter(d)
    ensures Bits(WithBits(p, c, s), d) == if c == d then s else Bits(p, d)
  {
  }

  lemma WithNonLetter(p: Pieces, c: char, s: Bitboard)
    requires !IsPieceLetter(c)
    ensures WithBits(p, c, s) == p
  {
  }

  /** Two piece sets whose bitboards agree on a square give it the same letter. */
  lemma SamePieceAt(p: Pieces, q: Pieces, sq: Square)
    requires sq in p.whitePawn <==> sq in q.whitePawn
    requires sq in p.blackPawn <==> sq in q.blackPawn
    requires sq in p.whiteRook <==> sq in q.whiteRook
    requires sq in p.blackRook <==> sq in q.blackRook
    requires sq in p.whiteKnight <==> sq in q.whiteKnight
    requires sq in p.blackKnight <==> sq in q.blackKnight
    requires sq in p.whiteBishop <==> sq in q.whiteBishop
    requires sq in p.blackBishop <==> sq in q.blackBishop
    requires sq in p.whiteKing <==> sq in q.whiteKing
    requires sq in p.blackKing <==> sq in q.blackKing
    requires sq in p.whiteQueen <==> sq in q.whiteQueen
    requires sq in p.blackQueen <==> sq in q.blackQueen
    ensures PieceAt(p, sq) == PieceAt(q, sq)
  {
  }

  /** Only the updated bitboard changes, and only on the one square. */
  lemma WithOneSquare(p: Pieces, c: char, sq: Square, s: Bitboard, x: Square)
    requires IsPieceLetter(c)
    requires x != sq
    requires x in s <==> x in Bits(p, c)
    ensures PieceAt(WithBits(p, c, s), x) == PieceAt(p, x)
  {
    var q := WithBits(p, c, s);
    match c
    case 'P' => SamePieceAt(p, q, x);
    case 'N' => SamePieceAt(p, q, x);
    case 'B' => SamePieceAt(p, q, x);
    case 'R' => SamePieceAt(p, q, x);
    case 'Q' => SamePieceAt(p, q, x);
    case 'K' => SamePieceAt(p, q, x);
    case 'p' => SamePieceAt(p, q, x);
    case 'n' => SamePieceAt(p, q, x);
    case 'b' => SamePieceAt(p, q, x);
    case 'r' => SamePieceAt(p, q, x);
    case 'q' => SamePieceAt(p, q, x);
    case 'k' => SamePieceAt(p, q, x);
  }

  /** addPiece on an empty square writes that one cell and keeps the bitboards disjoint. */
  lemma AddToEmpty(p: Pieces, sq: Square, c: char)
    requires Disjoint(p) && PieceAt(p, sq) == EMPTY
    ensures Disjoint(AddPiece(p, sq, c))
    ensures Cells(AddPiece(p, sq, c)) == Cells(p)[sq := Placed(c)]
  {
    var q := AddPiece(p, sq, c);
    CellsAt(p);
    CellsAt(q);
    if !IsPieceLetter(c) {
      WithNonLetter(p, c, Bits(p, c) + {Bit(sq)});
      assert Cells(p)[sq := Placed(c)] == Cells(p);
    } else {
      forall x: Square | x != sq
        ensures PieceAt(q, x) == PieceAt(p, x)
      {
        WithOneSquare(p, c, sq, Bits(p, c) + {Bit(sq)}, x);
      }
      AddedSquare(p, sq, c);
      forall x: Square, d: char | IsPieceLetter(d) && x in Bits(q, d)
        ensures PieceAt(q, x) == d
      {
        BitsOfWith(p, c, Bits(p, c) + {Bit(sq)}, d);
        if x != sq {
          assert x in Bits(p, d);
        }
      }
      assert Cells(q) == Cells(p)[sq := Placed(c)];
    }
  }

  lemma AddedSquare(p: Pieces, sq: Square, c: char)
    requires PieceAt(p, sq) == EMPTY && IsPieceLetter(c)
    ensures PieceAt(AddPiece(p, sq, c), sq) == c
  {
  }

  /** removePiece of the letter getPieceAt reports empties that one cell and keeps
      the bitboards disjoint. */
  lemma RemoveOccupant(p: Pieces, sq: Square)
    requires Disjoint(p)
    ensures Disjoint(RemovePiece(p, sq, PieceAt(p, sq)))
    ensures Cells(RemovePiece(p, sq, PieceAt(p, sq))) == Cells(p)[sq := EMPTY]
  {
    var c := PieceAt(p, sq);
    var q := RemovePiece(p, sq, c);
    CellsAt(p);
    CellsAt(q);
    if c == EMPTY {
      WithNonLetter(p, c, Bits(p, c) - {Bit(sq)});
      assert Cells(p)[sq := EMPTY] == Cells(p);
    } else {
      forall x: Square | x != sq
        ensures PieceAt(q, x) == PieceAt(p, x)
      {
        WithOneSquare(p, c, sq, Bits(p, c) - {Bit(sq)}, x);
      }
      forall d: char | IsPieceLetter(d)
        ensures sq !in Bits(p, d) - (if d == c then {sq} else {})
      {
        if sq in Bits(p, d) {
          assert PieceAt(p, sq) == d;
        }
      }
      forall d: char | IsPieceLetter(d)
        ensures sq !in Bits(q, d)
      {
        BitsOfWith(p, c, Bits(p, c) - {Bit(sq)}, d);
      }
      EmptiedSquare(q, sq);
      forall x: Square, d: char | IsPieceLetter(d) && x in Bits(q, d)
        ensures PieceAt(q, x) == d
      {
        BitsOfWith(p, c, Bits(p, c) - {Bit(sq)}, d);
        assert x != sq;
        assert x in Bits(p, d);
      }
      assert Cells(q) == Cells(p)[sq := EMPTY];
    }
  }

  lemma EmptiedSquare(q: Pieces, sq: Square)
    requires forall d: char :: IsPieceLetter(d) ==> sq !in Bits(q, d)
    ensures PieceAt(q, sq) == EMPTY
  {
    assert sq !in Bits(q, 'P') && sq !in Bits(q, 'p') && sq !in Bits(q, 'R') && sq !in Bits(q, 'r');
    assert sq !in Bits(q, 'N') && sq !in Bits(q, 'n') && sq !in Bits(q, 'B') && sq !in Bits(q, 'b');
    assert sq !in Bits(q, 'K') && sq !in Bits(q, 'k') && sq !in Bits(q, 'Q') && sq !in Bits(q, 'q');
  }

  /** Disjoint bitboards are determined by their cells. */
  lemma CellsDetermine(p: Pieces, q: Pieces)
    requires Disjoint(p) && Disjoint(q) && Cells(p) == Cells(q)
    ensures p == q
  {
    CellsAt(p);
    CellsAt(q);
    forall c: char | IsPieceLetter(c)
      ensures Bits(p, c) == Bits(q, c)
    {
      forall x: Square | x in Bits(p, c) ensures x in Bits(q, c) {
        assert PieceAt(p, x) == c == Cells(p)[x] == PieceAt(q, x);
      }
      forall x: Square | x in Bits(q, c) ensures x in Bits(p, c) {
        assert PieceAt(q, x) == c == Cells(q)[x] == PieceAt(p, x);
      }
    }
    assert Bits(p, 'P') == Bits(q, 'P') && Bits(p, 'p') == Bits(q, 'p');
    assert Bits(p, 'N') == Bits(q, 'N') && Bits(p, 'n') == Bits(q, 'n');
    assert Bits(p, 'B') == Bits(q, 'B') && Bits(p, 'b') == Bits(q, 'b');
    assert Bits(p, 'R') == Bits(q, 'R') && Bits(p, 'r') == Bits(q, 'r');
    assert Bits(p, 'Q') == Bits(q, 'Q') && Bits(p, 'q') == Bits(q, 'q');
    assert Bits(p, 'K') == Bits(q, 'K') && Bits(p, 'k') == Bits(q, 'k');
  }

  // ---------------------------------------------------------------------------
  // Castling rook helpers

  /** The four king moves that castle: e1-g1, e1-c1, e8-g8, e8-c8. */
  predicate CastlingPattern(kingFrom: int, kingTo: int)
  {
    (kingFrom == 4 && (kingTo == 6 || kingTo == 2)) || (kingFrom == 60 && (kingTo == 62 || kingTo == 58))
  }

  /** Where the castling rook starts: h1, a1, h8, a8. */
  function RookHome(kingFrom: int, kingTo: int): Square
    requires CastlingPattern(kingFrom, kingTo)
  {
    if kingFrom == 4 then (if kingTo == 6 then 7 else 0) else (if kingTo == 62 then 63 else 56)
  }

  /** Where the castling rook ends: f1, d1, f8, d8. */
  function RookDest(kingFrom: int, kingTo: int): Square
    requires CastlingPattern(kingFrom, kingTo)
  {
    if kingFrom == 4 then (if kingTo == 6 then 5 else 3) else (if kingTo == 62 then 61 else 59)
  }

  function RookLetter(kingFrom: int): char
  {
    if kingFrom == 4 then 'R' else 'r'
  }

  /** handleCastlingRookMove: h1->f1, a1->d1, h8->f8, a8->d8, by bit operations on the rook bitboard. */
  function CastleRook(p: Pieces, kingFrom: int, kingTo: int): Pieces
  {
    var p1 := if kingFrom == 4 && kingTo == 6 then p.(whiteRook := p.whiteRook - {7} + {5}) else p;
    var p2 := if kingFrom == 4 && kingTo == 2 then p1.(whiteRook := p1.whiteRook - {0} + {3}) else p1;
    var p3 := if kingFrom == 60 && kingTo == 62 then p2.(blackRook := p2.blackRook - {63} + {61}) else p2;
    if kingFrom == 60 && kingTo == 58 then p3.(blackRook := p3.blackRook - {56} + {59}) else p3
  }

  /** undoCastlingRookMove: f1->h1, d1->a1, f8->h8, d8->a8. */
  function UncastleRook(p: Pieces, kingFrom: int, kingTo: int): Pieces
  {
    var p1 := if kingFrom == 4 && kingTo == 6 then p.(whiteRook := p.whiteRook - {5} + {7}) else p;
    var p2 := if kingFrom == 4 && kingTo == 2 then p1.(whiteRook := p1.whiteRook - {3} + {0}) else p1;
    var p3 := if kingFrom == 60 && kingTo == 62 then p2.(blackRook := p2.blackRook - {61} + {63}) else p2;
    if kingFrom == 60 && kingTo == 58 then p3.(blackRook := p3.blackRook - {59} + {56}) else p3
  }

  /** The castling helpers move exactly the matching rook, as a removePiece then an addPiece,
      and leave every other bitboard alone; any other king move changes nothing. */
  lemma CastleRookMovesOneRook(p: Pieces, kingFrom: int, kingTo: int)
    ensures !CastlingPattern(kingFrom, kingTo) ==> CastleRook(p, kingFrom, kingTo) == p
    ensures !CastlingPattern(kingFrom, kingTo) ==> UncastleRook(p, kingFrom, kingTo) == p
    ensures CastlingPattern(kingFrom, kingTo) ==>
      var home, dest, rook := RookHome(kingFrom, kingTo), RookDest(kingFrom, kingTo), RookLetter(kingFrom);
      CastleRook(p, kingFrom, kingTo) == AddPiece(RemovePiece(p, home, rook), dest, rook) &&
      UncastleRook(p, kingFrom, kingTo) == AddPiece(RemovePiece(p, dest, rook), home, rook)
  {
  }

  /** undoCastlingRookMove reverses handleCastlingRookMove when the rook stood on its home
      square and its destination was free of rooks of its colour. */
  lemma CastleRookRoundTrip(p: Pieces, kingFrom: int, kingTo: int)
    requires CastlingPattern(kingFrom, kingTo) ==>
      RookHome(kingFrom, kingTo) in Bits(p, RookLetter(kingFrom)) &&
      RookDest(kingFrom, kingTo) !in Bits(p, RookLetter(kingFrom))
    ensures UncastleRook(CastleRook(p, kingFrom, kingTo), kingFrom, kingTo) == p
  {
    if kingFrom == 4 && kingTo == 6 {
      assert p.whiteRook - {7} + {5} - {5} + {7} == p.whiteRook;
    } else if kingFrom == 4 && kingTo == 2 {
      assert p.whiteRook - {0} + {3} - {3} + {0} == p.whiteRook;
    } else if kingFrom == 60 && kingTo == 62 {
      assert p.blackRook - {63} + {61} - {61} + {63} == p.blackRook;
    } else if kingFrom == 60 && kingTo == 58 {
      assert p.blackRook - {56} + {59} - {59} + {56} == p.blackRook;
    }
  }

  // ---------------------------------------------------------------------------
  // makeMove and unmakeMove

  function PawnLetter(white: bool): char
  {
    if white then 'P' else 'p'
  }

  /** The square of the pawn an en-passant capture removes: one rank behind the target. */
  function EnPassantVictim(white: bool, to: int): int
  {
    if white then to - 8 else to + 8
  }

  /** The square a real capture removes its piece from. */
  function CaptureSquare(white: bool, m: Move): int
  {
    if m.isEnPassant then EnPassantVictim(white, m.to) else m.to
  }

  /** `new GameState(position)`: the six fields unmakeMove cannot recompute. */
  function Snapshot(b: Board): (g: GameState)
    ensures g.whiteCanCastleKingside == b.whiteCanCastleKingside
    ensures g.whiteCanCastleQueenside == b.whiteCanCastleQueenside
    ensures g.blackCanCastleKingside == b.blackCanCastleKingside
    ensures g.blackCanCastleQueenside == b.blackCanCastleQueenside
    ensures g.enPassantSquare == b.enPassantSquare && g.halfMoveCount == b.halfMoveCount
  {
    GameState(b.whiteCanCastleKingside, b.whiteCanCastleQueenside,
              b.blackCanCastleKingside, b.blackCanCastleQueenside,
              b.enPassantSquare, b.halfMoveCount)
  }

  /** Steps 2 to 6 of makeMove: lift the mover, remove a real capture (behind the target
      for en passant), drop the mover or the promotion piece on the target, move the
      castling rook. */
  function MakePieces(p: Pieces, white: bool, m: Move): Pieces
  {
    var piece := PieceAt(p, m.from);
    var p1 := RemovePiece(p, m.from, piece);
    var p2 := if IsCapture(m) then RemovePiece(p1, CaptureSquare(white, m), m.capturedPiece) else p1;
    var p3 := AddPiece(p2, m.to, if m.isPromotion then m.promotionPiece else piece);
    if m.isCastling then CastleRook(p3, m.from, m.to) else p3
  }

  /** makeMove: the position after the move (the snapshot it returns is Snapshot(b)). */
  function Make(b: Board, m: Move): Board
  {
    var piece := PieceAt(b.pieces, m.from);
    Board(
      MakePieces(b.pieces, b.isWhiteTurn, m),
      !b.isWhiteTurn,
      if m.capturedPiece != NUL || piece == 'P' || piece == 'p' then 0 else b.halfMoveCount + 1,
      b.whiteCanCastleKingside && piece != 'K' && m.from != 7,
      b.whiteCanCastleQueenside && piece != 'K' && m.from != 0,
      b.blackCanCastleKingside && piece != 'k' && m.from != 63,
      b.blackCanCastleQueenside && piece != 'k' && m.from != 56,
      if piece == 'P' && m.to - m.from == 16 then m.from + 8
      else if piece == 'p' && m.from - m.to == 16 then m.from - 8
      else -1)
  }

  /** A board whose fields are those makeMove computes, with `piece` the mover
      getPieceAt finds on the origin, is Make(b, m). */
  lemma MakeFields(b: Board, m: Move, piece: char, after: Board)
    requires piece == PieceAt(b.pieces, m.from)
    requires after.pieces == MakePieces(b.pieces, b.isWhiteTurn, m)
    requires after.isWhiteTurn == !b.isWhiteTurn
    requires after.halfMoveCount ==
      if m.capturedPiece != NUL || piece == 'P' || piece == 'p' then 0 else b.halfMoveCount + 1
    requires after.whiteCanCastleKingside == (b.whiteCanCastleKingside && piece != 'K' && m.from != 7)
    requires after.whiteCanCastleQueenside == (b.whiteCanCastleQueenside && piece != 'K' && m.from != 0)
    requires after.blackCanCastleKingside == (b.blackCanCastleKingside && piece != 'k' && m.from != 63)
    requires after.blackCanCastleQueenside == (b.blackCanCastleQueenside && piece != 'k' && m.from != 56)
    requires after.enPassantSquare ==
      if piece == 'P' && m.to - m.from == 16 then m.from + 8
      else if piece == 'p' && m.from - m.to == 16 then m.from - 8
      else -1
    ensures after == Make(b, m)
  {
  }

  /** What makeMove promises of the fields besides the pieces. The turn passes to the
      other side. No castling right is ever granted. A king move drops both of its
      side's rights, leaving a corner drops that corner's right, and any other move
      keeps them. The en-passant square is set exactly after a pawn's two-rank step
      forward, to the square it passed over. The clock is reset by a capture or a pawn
      move and otherwise counts up by one. */
  lemma MakeFieldRules(b: Board, m: Move)
    ensures Make(b, m).isWhiteTurn != b.isWhiteTurn
    ensures Make(b, m).whiteCanCastleKingside ==> b.whiteCanCastleKingside
    ensures Make(b, m).whiteCanCastleQueenside ==> b.whiteCanCastleQueenside
    ensures Make(b, m).blackCanCastleKingside ==> b.blackCanCastleKingside
    ensures Make(b, m).blackCanCastleQueenside ==> b.blackCanCastleQueenside
    ensures PieceAt(b.pieces, m.from) == 'K' ==>
      !Make(b, m).whiteCanCastleKingside && !Make(b, m).whiteCanCastleQueenside
    ensures PieceAt(b.pieces, m.from) == 'k' ==>
      !Make(b, m).blackCanCastleKingside && !Make(b, m).blackCanCastleQueenside
    ensures m.from == 7 ==> !Make(b, m).whiteCanCastleKingside
    ensures m.from == 0 ==> !Make(b, m).whiteCanCastleQueenside
    ensures m.from == 63 ==> !Make(b, m).blackCanCastleKingside
    ensures m.from == 56 ==> !Make(b, m).blackCanCastleQueenside
    ensures PieceAt(b.pieces, m.from) !in {'K', 'k'} && m.from !in {0, 7, 56, 63} ==>
      && Make(b, m).whiteCanCastleKingside == b.whiteCanCastleKingside
      && Make(b, m).whiteCanCastleQueenside == b.whiteCanCastleQueenside
      && Make(b, m).blackCanCastleKingside == b.blackCanCastleKingside
      && Make(b, m).blackCanCastleQueenside == b.blackCanCastleQueenside
    ensures 0 <= m.from < 64 && 0 <= m.to < 64 ==> (Make(b, m).enPassantSquare != -1 <==>
      (PieceAt(b.pieces, m.from) == 'P' && m.to == m.from + 16) ||
      (PieceAt(b.pieces, m.from) == 'p' && m.to == m.from - 16))
    ensures Make(b, m).enPassantSquare != -1 ==> Make(b, m).enPassantSquare * 2 == m.from + m.to
    ensures m.capturedPiece != NUL || PieceAt(b.pieces, m.from) in {'P', 'p'} ==> Make(b, m).halfMoveCount == 0
    ensures m.capturedPiece == NUL && PieceAt(b.pieces, m.from) !in {'P', 'p'} ==>
      Make(b, m).halfMoveCount == b.halfMoveCount + 1
  {
  }

  /** Steps 2 to 5 of unmakeMove, with `white` the side that made the move. */
  function UnmakePieces(p: Pieces, white: bool, m: Move): Pieces
  {
    var piece := PieceAt(p, m.to);
    var p1 := RemovePiece(p, m.to, piece);
    var p2 := AddPiece(p1, m.from, if m.isPromotion then PawnLetter(white) else piece);
    var p3 := if IsCapture(m) then AddPiece(p2, CaptureSquare(white, m), m.capturedPiece) else p2;
    if m.isCastling then UncastleRook(p3, m.from, m.to) else p3
  }

  /** unmakeMove: flip the side back first, move the pieces back, restore the snapshot. */
  function Unmake(b: Board, m: Move, saved: GameState): Board
  {
    var white := !b.isWhiteTurn;
    Board(
      UnmakePieces(b.pieces, white, m),
      white,
      saved.halfMoveCount,
      saved.whiteCanCastleKingside,
      saved.whiteCanCastleQueenside,
      saved.blackCanCastleKingside,
      saved.blackCanCastleQueenside,
      saved.enPassantSquare)
  }

  /** What a move must satisfy on a board for unmakeMove to undo makeMove exactly:
      disjoint bitboards; on-board, distinct squares; a promotion starts from a pawn of the
      side to move; a real capture names the piece on its capture square (other than the
      origin); the target is otherwise empty; a castling move captures and promotes nothing,
      and its rook is at home with its destination empty. */
  ghost predicate Reversible(b: Board, m: Move)
  {
    && Disjoint(b.pieces)
    && 0 <= m.from < 64 && 0 <= m.to < 64 && m.from != m.to
    && (m.isPromotion ==> PieceAt(b.pieces, m.from) == PawnLetter(b.isWhiteTurn))
    && (if IsCapture(m) then
          var t := CaptureSquare(b.isWhiteTurn, m);
          && 0 <= t < 64 && t != m.from
          && PieceAt(b.pieces, t) == m.capturedPiece
          && (m.isEnPassant ==> PieceAt(b.pieces, m.to) == EMPTY)
        else PieceAt(b.pieces, m.to) == EMPTY)
    && (m.isCastling ==>
          && !IsCapture(m) && !m.isPromotion
          && (CastlingPattern(m.from, m.to) ==>
                && PieceAt(b.pieces, RookHome(m.from, m.to)) == RookLetter(m.from)
                && PieceAt(b.pieces, RookDest(m.from, m.to)) == EMPTY))
  }

  /** The rook relocation of a castling move, read on cells. */
  lemma CastleRookCells(p: Pieces, kingFrom: int, kingTo: int)
    requires Disjoint(p) && CastlingPattern(kingFrom, kingTo)
    requires PieceAt(p, RookHome(kingFrom, kingTo)) == RookLetter(kingFrom)
    requires PieceAt(p, RookDest(kingFrom, kingTo)) == EMPTY
    ensures Disjoint(CastleRook(p, kingFrom, kingTo))
    ensures Cells(CastleRook(p, kingFrom, kingTo)) ==
      Cells(p)[RookHome(kingFrom, kingTo) := EMPTY][RookDest(kingFrom, kingTo) := RookLetter(kingFrom)]
  {
    var home, dest, rook := RookHome(kingFrom, kingTo), RookDest(kingFrom, kingTo), RookLetter(kingFrom);
    CastleRookMovesOneRook(p, kingFrom, kingTo);
    RemoveOccupant(p, home);
    var p1 := RemovePiece(p, home, rook);
    CellsAt(p1);
    assert PieceAt(p1, dest) == Cells(p1)[dest] == EMPTY;
    AddToEmpty(p1, dest, rook);
  }

  /** The inverse rook relocation, read on cells. */
  lemma UncastleRookCells(p: Pieces, kingFrom: int, kingTo: int)
    requires Disjoint(p) && CastlingPattern(kingFrom, kingTo)
    requires PieceAt(p, RookDest(kingFrom, kingTo)) == RookLetter(kingFrom)
    requires PieceAt(p, RookHome(kingFrom, kingTo)) == EMPTY
    ensures Disjoint(UncastleRook(p, kingFrom, kingTo))
    ensures Cells(UncastleRook(p, kingFrom, kingTo)) ==
      Cells(p)[RookDest(kingFrom, kingTo) := EMPTY][RookHome(kingFrom, kingTo) := RookLetter(kingFrom)]
  {
    var home, dest, rook := RookHome(kingFrom, kingTo), RookDest(kingFrom, kingTo), RookLetter(kingFrom);
    CastleRookMovesOneRook(p, kingFrom, kingTo);
    RemoveOccupant(p, dest);
    var p1 := RemovePiece(p, dest, rook);
    CellsAt(p1);
    assert PieceAt(p1, home) == Cells(p1)[home] == EMPTY;
    AddToEmpty(p1, home, rook);
  }

  /** The cells after makeMove's piece steps: the origin emptied, a real capture's square
      emptied, the target holding the mover (or promotion piece), the castling rook moved. */
  lemma MakePiecesCells(p: Pieces, white: bool, m: Move)
    requires Reversible(Board(p, white, 0, false, false, false, false, -1), m)
    ensures Disjoint(MakePieces(p, white, m))
    ensures
      var c0 := Cells(p);
      var mover := if m.isPromotion then Placed(m.promotionPiece) else c0[m.from];
      var c1 := c0[m.from := EMPTY];
      var c2 := if IsCapture(m) then c1[CaptureSquare(white, m) := EMPTY] else c1;
      var c3 := c2[m.to := mover];
      Cells(MakePieces(p, white, m)) ==
        if m.isCastling && CastlingPattern(m.from, m.to)
        then c3[RookHome(m.from, m.to) := EMPTY][RookDest(m.from, m.to) := RookLetter(m.from)]
        else c3
  {
    CellsAt(p);
    var piece := PieceAt(p, m.from);
    RemoveOccupant(p, m.from);
    var p1 := RemovePiece(p, m.from, piece);
    var p2 := p1;
    if IsCapture(m) {
      var t := CaptureSquare(white, m);
      CellsAt(p1);
      assert PieceAt(p1, t) == Cells(p1)[t] == m.capturedPiece;
      RemoveOccupant(p1, t);
      p2 := RemovePiece(p1, t, m.capturedPiece);
    }
    CellsAt(p2);
    assert PieceAt(p2, m.to) == Cells(p2)[m.to] == EMPTY;
    var x := if m.isPromotion then m.promotionPiece else piece;
    AddToEmpty(p2, m.to, x);
    assert !m.isPromotion ==> Placed(piece) == piece;
    var p3 := AddPiece(p2, m.to, x);
    if m.isCastling {
      if CastlingPattern(m.from, m.to) {
        var home, dest := RookHome(m.from, m.to), RookDest(m.from, m.to);
        CellsAt(p3);
        assert PieceAt(p3, home) == Cells(p3)[home] == RookLetter(m.from);
        assert PieceAt(p3, dest) == Cells(p3)[dest] == EMPTY;
        CastleRookCells(p3, m.from, m.to);
      } else {
        CastleRookMovesOneRook(p3, m.from, m.to);
      }
    }
  }

  /** unmakeMove's piece steps, read on cells, for the cells makeMove leaves behind. */
  lemma UnmakePiecesCells(q: Pieces, white: bool, m: Move, c0: seq<char>)
    requires Disjoint(q) && |c0| == 64
    requires 0 <= m.from < 64 && 0 <= m.to < 64 && m.from != m.to
    requires Cells(q)[m.from] == EMPTY
    requires IsCapture(m) ==>
      var t := CaptureSquare(white, m);
      0 <= t < 64 && t != m.from && (t != m.to ==> Cells(q)[t] == EMPTY)
    requires m.isCastling && CastlingPattern(m.from, m.to) ==>
      !IsCapture(m) && Cells(q)[RookDest(m.from, m.to)] == RookLetter(m.from) &&
      Cells(q)[RookHome(m.from, m.to)] == EMPTY
    ensures
      var mover := if m.isPromotion then PawnLetter(white) else Cells(q)[m.to];
      var c1 := Cells(q)[m.to := EMPTY][m.from := Placed(mover)];
      var c2 := if IsCapture(m) then c1[CaptureSquare(white, m) := Placed(m.capturedPiece)] else c1;
      Cells(UnmakePieces(q, white, m)) ==
        if m.isCastling && CastlingPattern(m.from, m.to)
        then c2[RookDest(m.from, m.to) := EMPTY][RookHome(m.from, m.to) := RookLetter(m.from)]
        else c2
  {
    var piece := PieceAt(q, m.to);
    RemoveOccupant(q, m.to);
    var p1 := RemovePiece(q, m.to, piece);
    CellsAt(q);
    CellsAt(p1);
    assert PieceAt(p1, m.from) == Cells(p1)[m.from] == EMPTY;
    var y := if m.isPromotion then PawnLetter(white) else piece;
    AddToEmpty(p1, m.from, y);
    var p2 := AddPiece(p1, m.from, y);
    var p3 := p2;
    if IsCapture(m) {
      var t := CaptureSquare(white, m);
      CellsAt(p2);
      assert PieceAt(p2, t) == Cells(p2)[t] == EMPTY;
      AddToEmpty(p2, t, m.capturedPiece);
      p3 := AddPiece(p2, t, m.capturedPiece);
    }
    if m.isCastling {
      if CastlingPattern(m.from, m.to) {
        var home, dest := RookHome(m.from, m.to), RookDest(m.from, m.to);
        CellsAt(p3);
        assert PieceAt(p3, dest) == Cells(p3)[dest] == RookLetter(m.from);
        assert PieceAt(p3, home) == Cells(p3)[home] == EMPTY;
        UncastleRookCells(p3, m.from, m.to);
      } else {
        CastleRookMovesOneRook(p3, m.from, m.to);
      }
    }
  }

  /** unmakeMove puts every bitboard back as makeMove found it. */
  lemma {:induction false} MakeUnmakePieces(b: Board, m: Move)
    requires Reversible(b, m)
    ensures UnmakePieces(MakePieces(b.pieces, b.isWhiteTurn, m), b.isWhiteTurn, m) == b.pieces
  {
    var p, white := b.pieces, b.isWhiteTurn;
    assert Reversible(Board(p, white, 0, false, false, false, false, -1), m);
    MakePiecesCells(p, white, m);
    var q := MakePieces(p, white, m);
    UnmakePiecesCells(q, white, m, Cells(p));
    var r := UnmakePieces(q, white, m);
    CellsAt(p);
    RemoveOccupant(q, m.to);
    assert Disjoint(r) by {
      // the same steps as UnmakePiecesCells, repeated for disjointness
      UnmakeKeepsDisjoint(q, white, m);
    }
    assert IsCapture(m) ==> IsPieceLetter(m.capturedPiece);
    assert m.isPromotion ==> IsPieceLetter(PawnLetter(white));
    assert Cells(r) == Cells(p);
    CellsDetermine(r, p);
  }

  lemma UnmakeKeepsDisjoint(q: Pieces, white: bool, m: Move)
    requires Disjoint(q)
    requires 0 <= m.from < 64 && 0 <= m.to < 64 && m.from != m.to
    requires Cells(q)[m.from] == EMPTY
    requires IsCapture(m) ==>
      var t := CaptureSquare(white, m);
      0 <= t < 64 && t != m.from && (t != m.to ==> Cells(q)[t] == EMPTY)
    requires m.isCastling && CastlingPattern(m.from, m.to) ==>
      !IsCapture(m) && Cells(q)[RookDest(m.from, m.to)] == RookLetter(m.from) &&
      Cells(q)[RookHome(m.from, m.to)] == EMPTY
    ensures Disjoint(UnmakePieces(q, white, m))
  {
    var piece := PieceAt(q, m.to);
    RemoveOccupant(q, m.to);
    var p1 := RemovePiece(q, m.to, piece);
    CellsAt(q);
    CellsAt(p1);
    assert PieceAt(p1, m.from) == Cells(p1)[m.from] == EMPTY;
    var y := if m.isPromotion then PawnLetter(white) else piece;
    AddToEmpty(p1, m.from, y);
    var p2 := AddPiece(p1, m.from, y);
    var p3 := p2;
    if IsCapture(m) {
      var t := CaptureSquare(white, m);
      CellsAt(p2);
      assert PieceAt(p2, t) == Cells(p2)[t] == EMPTY;
      AddToEmpty(p2, t, m.capturedPiece);
      p3 := AddPiece(p2, t, m.capturedPiece);
    }
    if m.isCastling {
      if CastlingPattern(m.from, m.to) {
        var home, dest := RookHome(m.from, m.to), RookDest(m.from, m.to);
        CellsAt(p3);
        assert PieceAt(p3, dest) == Cells(p3)[dest] == RookLetter(m.from);
        assert PieceAt(p3, home) == Cells(p3)[home] == EMPTY;
        UncastleRookCells(p3, m.from, m.to);
      } else {
        CastleRookMovesOneRook(p3, m.from, m.to);
      }
    }
  }

  /** unmakeMove(m, makeMove(m)) restores all twelve bitboards, the side to move, the four
      castling flags, the en-passant square and the halfmove clock. */
  lemma MakeUnmakeRoundTrip(b: Board, m: Move)
    requires Reversible(b, m)
    ensures Unmake(Make(b, m), m, Snapshot(b)) == b
  {
    MakeUnmakePieces(b, m);
  }
}
