/** Move.java: the description of one ply. */
module Moves {
  import opened JavaLib

  /** The `char` default value: "nothing captured" on pushes, slides and castling. */
  const NUL: char := '\0'

  /** What getPieceAt answers for an empty square; knight and king moves to an
      empty square carry it as their captured piece. */
  const EMPTY: char := '.'

  datatype Move = Move(
    from: int,
    to: int,
    isPromotion: bool,
    promotionPiece: char,
    isCastling: bool,
    isEnPassant: bool,
    capturedPiece: char)

  /** `new Move(from, to, capturedPiece)`: every flag starts false. */
  function NewMove(from: int, to: int, capturedPiece: char): (m: Move)
    ensures m.from == from && m.to == to && m.capturedPiece == capturedPiece
    ensures !m.isPromotion && !m.isCastling && !m.isEnPassant && m.promotionPiece == NUL
  {
    Move(from, to, false, NUL, false, false, capturedPiece)
  }

  /** setPromotion: sets the flag and the piece and changes nothing else. */
  function SetPromotion(m: Move, piece: char): (r: Move)
    ensures r.isPromotion && r.promotionPiece == piece
    ensures r.from == m.from && r.to == m.to && r.capturedPiece == m.capturedPiece
    ensures r.isCastling == m.isCastling && r.isEnPassant == m.isEnPassant
  {
    m.(isPromotion := true, promotionPiece := piece)
  }

  /** setCastling: sets its own flag only. */
  function SetCastling(m: Move): (r: Move)
    ensures r.isCastling
    ensures r.from == m.from && r.to == m.to && r.capturedPiece == m.capturedPiece
    ensures r.isPromotion == m.isPromotion && r.promotionPiece == m.promotionPiece
    ensures r.isEnPassant == m.isEnPassant
  {
    m.(isCastling := true)
  }

  /** setEnPassant: sets its own flag only. */
  function SetEnPassant(m: Move): (r: Move)
    ensures r.isEnPassant
    ensures r.from == m.from && r.to == m.to && r.capturedPiece == m.capturedPiece
    ensures r.isPromotion == m.isPromotion && r.promotionPiece == m.promotionPiece
    ensures r.isCastling == m.isCastling
  {
    m.(isEnPassant := true)
  }

  /** isCapture: a captured piece that is neither NUL nor the empty-square marker. */
  predicate IsCapture(m: Move)
  {
    m.capturedPiece != NUL && m.capturedPiece != EMPTY
  }

  /** squareToString: the file letter followed by the rank number. */
  function SquareToString(sq: int): (s: string)
    ensures |s| >= 2 && s[0] as int == 'a' as int + JavaRem(sq, 8)
    ensures s[1..] == IntToString(JavaDiv(sq, 8) + 1)
    ensures 0 <= sq < 64 ==>
      |s| == 2 && 'a' <= s[0] <= 'h' && '1' <= s[1] <= '8' &&
      (s[0] as int - 'a' as int) + 8 * (s[1] as int - '1' as int) == sq
  {
    [('a' as int + JavaRem(sq, 8)) as char] + IntToString(JavaDiv(sq, 8) + 1)
  }

  /** The text toString starts with. */
  function MovePrefix(m: Move): string
  {
    SquareToString(m.from) + "-" + SquareToString(m.to)
  }

  /** The suffixes toString appends after "from-to". */
  function Suffix(m: Move): (s: string)
    ensures |s| == 0 <==> !(IsCapture(m) || m.isPromotion || m.isCastling || m.isEnPassant)
  {
    var capture := if m.capturedPiece != NUL && m.capturedPiece != EMPTY then " captures " + [m.capturedPiece] else "";
    var promotion := if m.isPromotion then " promotes to " + [m.promotionPiece] else "";
    var castling := if m.isCastling then " (castling)" else "";
    var enPassant := if m.isEnPassant then " (en passant)" else "";
    assert |capture| == 0 <==> !IsCapture(m);
    capture + promotion + castling + enPassant
  }

  /** toString: "from-to", then one suffix per real capture, promotion, castling
      and en passant, in that order. */
  function ToString(m: Move): (s: string)
    ensures |MovePrefix(m)| <= |s| && s[..|MovePrefix(m)|] == MovePrefix(m)
    ensures |s| == |MovePrefix(m)| <==>
      !(IsCapture(m) || m.isPromotion || m.isCastling || m.isEnPassant)
  {
    MovePrefix(m) + Suffix(m)
  }
}
