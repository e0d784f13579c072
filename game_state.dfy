/** GameState.java: the undo snapshot taken by makeMove. It holds the four
    castling flags, the en-passant square and the halfmove clock, and nothing
    else: no bitboards and no side to move, which unmakeMove recovers from the
    Move alone. Being a value, later changes to the position cannot reach it. */
module GameStates {

  datatype GameState = GameState(
    whiteCanCastleKingside: bool,
    whiteCanCastleQueenside: bool,
    blackCanCastleKingside: bool,
    blackCanCastleQueenside: bool,
    enPassantSquare: int,
    halfMoveCount: int)
}
