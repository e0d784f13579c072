/** Forsyth-Edwards Notation as Position.java reads and writes it: the constructor's
    parse of the space-separated fields, toFEN's text, and the proof that reading
    back what toFEN writes gives the same position. */
module Fen {
  import opened Bitboards
  import opened JavaLib
  import opened Moves
  import opened Boards

  // ---------------------------------------------------------------------------
  // Reading

  /** The inner loop of the constructor over one rank's text, starting at `square`:
      a digit skips that many squares; any other character goes through the switch
      (a piece letter sets its bit, anything else sets nothing) and advances one square. */
  function PlaceRank(p: Pieces, rank: string, square: int): Pieces
    decreases |rank|
  {
    if |rank| == 0 then p
    else if IsDigit(rank[0]) then PlaceRank(p, rank[1..], square + DigitValue(rank[0]))
    else PlaceRank(AddPiece(p, square, rank[0]), rank[1..], square + 1)
  }

  /** The outer loop: rank text `rankIndex` (0 = the eighth rank) starts at square
      (7 - rankIndex) * 8. */
  function PlaceRanks(p: Pieces, ranks: seq<string>, rankIndex: int): Pieces
    requires 0 <= rankIndex <= 8 <= |ranks|
    decreases 8 - rankIndex
  {
    if rankIndex == 8 then p
    else PlaceRanks(PlaceRank(p, ranks[rankIndex], (7 - rankIndex) * 8), ranks, rankIndex + 1)
  }

  /** What the constructor reads without an exception: at least five fields, eight
      ranks, a two-character en-passant field unless it holds '-', and an integer
      halfmove field. */
  predicate FieldsReadable(parts: seq<string>)
  {
    && |parts| >= 5
    && |Split(parts[0], '/')| >= 8
    && ('-' !in parts[3] ==> |parts[3]| >= 2)
    && IsInteger(parts[4])
  }

  /** The en-passant field: -1 when it contains '-', else rank * 8 + file read from its
      first two characters. */
  function EnPassantField(s: string): (sq: int)
    requires '-' in s || |s| >= 2
    ensures '-' !in s && 'a' <= s[0] <= 'h' && '1' <= s[1] <= '8' ==> 0 <= sq < 64
  {
    if '-' in s then -1 else (s[1] as int - '1' as int) * 8 + (s[0] as int - 'a' as int)
  }

  /** The position the constructor builds from the fields of a FEN string. */
  function ParseFields(parts: seq<string>): Board
    requires FieldsReadable(parts)
  {
    Board(
      PlaceRanks(NoPieces, Split(parts[0], '/'), 0),
      parts[1] == "w",
      ParseInt(parts[4]),
      'K' in parts[2],
      'Q' in parts[2],
      'k' in parts[2],
      'q' in parts[2],
      EnPassantField(parts[3]))
  }

  /** A placement with a trailing '/' splits into seven ranks, too few to read. */
  lemma TrailingSlashUnreadable()
    ensures !FieldsReadable(["8/8/8/8/8/8/8/", "w", "-", "-", "0"])
  {
    var parts := ["8", "8", "8", "8", "8", "8", "8", ""];
    assert Join(parts[7..], '/') == "";
    assert Join(parts[6..], '/') == "8/";
    assert Join(parts[4..], '/') == "8/8/8/";
    assert Join(parts[2..], '/') == "8/8/8/8/8/";
    assert Join(parts, '/') == "8/8/8/8/8/8/8/";
    SplitAllJoin(parts, '/');
  }

  /** A clock beyond Integer.MAX_VALUE is not readable, whatever the other fields say. */
  lemma HugeClockUnreadable(placement: string, side: string, castling: string, enPassant: string)
    ensures !FieldsReadable([placement, side, castling, enPassant, "99999999999"])
  {
    ElevenNines("99999999999");
  }

  /** Eleven nines denote 99999999999. */
  lemma ElevenNines(clock: string)
    requires |clock| == 11 && forall i :: 0 <= i < 11 ==> clock[i] == '9'
    ensures AllDigits(clock) && DigitsValue(clock) == 99999999999
  {
    var k := 0;
    var value := 0;
    var nines := [0, 9, 99, 999, 9999, 99999, 999999, 9999999, 99999999, 999999999,
                  9999999999, 99999999999];
    while k < 11
      invariant 0 <= k <= 11 && value == DigitsValue(clock[..k]) == nines[k]
    {
      DigitsStep(clock, k + 1);
      value := value * 10 + 9;
      k := k + 1;
    }
    assert clock[..11] == clock;
  }

  lemma DigitsStep(s: string, k: int)
    requires AllDigits(s) && 0 < k <= |s|
    ensures AllDigits(s[..k]) && AllDigits(s[..k - 1])
    ensures DigitsValue(s[..k]) == DigitsValue(s[..k - 1]) * 10 + DigitValue(s[k - 1])
  {
    assert s[..k][..k - 1] == s[..k - 1];
  }

  /** A FEN of spaces only splits into no fields at all. */
  lemma BlankUnreadable()
    ensures !FieldsReadable(Split("  ", ' '))
  {
  }

  // ---------------------------------------------------------------------------
  // Writing

  /** `fen.append(emptyCount)` when the count is positive. */
  function EmptyRun(emptyCount: int): string
  {
    if emptyCount > 0 then IntToString(emptyCount) else ""
  }

  /** The text of one rank of the board's cells from `file` on, with `emptyCount` empty
      squares pending before it. */
  function RankText(cells: seq<char>, rank: int, file: int, emptyCount: int): string
    requires |cells| == 64 && 0 <= rank < 8 && 0 <= file <= 8
    decreases 8 - file
  {
    if file == 8 then EmptyRun(emptyCount)
    else
      var piece := cells[rank * 8 + file];
      if piece == EMPTY then RankText(cells, rank, file + 1, emptyCount + 1)
      else EmptyRun(emptyCount) + [piece] + RankText(cells, rank, file + 1, 0)
  }

  /** The piece-placement field from `rank` down to the first rank, '/' between ranks. */
  function PlacementText(cells: seq<char>, rank: int): string
    requires |cells| == 64 && -1 <= rank <= 7
    decreases rank + 1
  {
    if rank < 0 then ""
    else RankText(cells, rank, 0, 0) + (if rank > 0 then "/" else "") + PlacementText(cells, rank - 1)
  }

  /** The castling field: KQkq in that order for the rights held, "-" for none. */
  function CastlingText(b: Board): (s: string)
    ensures s == "-" <==>
      !(b.whiteCanCastleKingside || b.whiteCanCastleQueenside ||
        b.blackCanCastleKingside || b.blackCanCastleQueenside)
    ensures ('K' in s <==> b.whiteCanCastleKingside) && ('Q' in s <==> b.whiteCanCastleQueenside)
    ensures ('k' in s <==> b.blackCanCastleKingside) && ('q' in s <==> b.blackCanCastleQueenside)
    ensures ' ' !in s
  {
    var castling := (if b.whiteCanCastleKingside then "K" else "") +
                    (if b.whiteCanCastleQueenside then "Q" else "") +
                    (if b.blackCanCastleKingside then "k" else "") +
                    (if b.blackCanCastleQueenside then "q" else "");
    assert '-' !in castling;
    if castling == "" then "-" else castling
  }

  /** The en-passant field: "-" or the square's name. */
  function EnPassantText(sq: int): string
  {
    if sq == -1 then "-" else SquareToString(sq)
  }

  /** toFEN: placement, side, castling, en passant, halfmove clock and a fullmove
      number that is always 1. */
  function FenString(b: Board): string
  {
    PlacementText(Cells(b.pieces), 7) + (if b.isWhiteTurn then " w " else " b ") +
    CastlingText(b) + " " + EnPassantText(b.enPassantSquare) + " " +
    IntToString(b.halfMoveCount) + " " + "1"
  }

  // ---------------------------------------------------------------------------
  // Reading back what was written

  /** Every cell is a piece letter or the empty marker, as getPieceAt answers. */
  predicate CellsWellFormed(cells: seq<char>)
  {
    |cells| == 64 && forall i :: 0 <= i < 64 ==> cells[i] == EMPTY || IsPieceLetter(cells[i])
  }

  /** The rank texts from `rank` down to the first rank. */
  function RanksFrom(cells: seq<char>, rank: int): (ranks: seq<string>)
    requires |cells| == 64 && -1 <= rank <= 7
    ensures |ranks| == rank + 1
  {
    seq(rank + 1, i requires 0 <= i <= rank => RankText(cells, rank - i, 0, 0))
  }

  /** A rank's text holds piece letters and digits only. */
  lemma {:induction false} RankTextChars(cells: seq<char>, rank: int, file: int, emptyCount: int)
    requires CellsWellFormed(cells) && 0 <= rank < 8 && 0 <= file <= 8
    ensures forall i :: 0 <= i < |RankText(cells, rank, file, emptyCount)| ==>
      var c := RankText(cells, rank, file, emptyCount)[i];
      IsDigit(c) || IsPieceLetter(c)
    decreases 8 - file
  {
    if file < 8 {
      RankTextChars(cells, rank, file + 1, emptyCount + 1);
      RankTextChars(cells, rank, file + 1, 0);
    }
    assert forall i :: 0 <= i < |EmptyRun(emptyCount)| ==> IsDigit(EmptyRun(emptyCount)[i]);
  }

  /** The first rank text listed is the one of `rank` itself. */
  lemma RanksFromStep(cells: seq<char>, rank: int)
    requires |cells| == 64 && 0 <= rank <= 7
    ensures RanksFrom(cells, rank) == [RankText(cells, rank, 0, 0)] + RanksFrom(cells, rank - 1)
  {
    var parts := RanksFrom(cells, rank);
    assert parts[0] == RankText(cells, rank, 0, 0);
    assert parts[1..] == RanksFrom(cells, rank - 1);
    assert parts == [parts[0]] + parts[1..];
  }

  lemma Slash()
    ensures "/" == ['/']
  {
  }

  lemma {:induction false} PlacementIsJoin(cells: seq<char>, rank: int)
    requires |cells| == 64 && 0 <= rank <= 7
    ensures PlacementText(cells, rank) == Join(RanksFrom(cells, rank), '/')
    decreases rank
  {
    var parts := RanksFrom(cells, rank);
    RanksFromStep(cells, rank);
    if rank > 0 {
      PlacementIsJoin(cells, rank - 1);
      Slash();
    }
  }

  /** Parsing one rank's text from the square where its pending empty run begins puts
      back exactly the cells of that rank's remaining squares, on squares that were empty. */
  lemma {:induction false} RankRoundTrip(cells: seq<char>, q: Pieces, rank: int, file: int, emptyCount: int, start: int)
    requires CellsWellFormed(cells) && Disjoint(q) && 0 <= rank < 8 && 0 <= emptyCount <= file <= 8
    requires start == rank * 8 + file - emptyCount
    requires forall sq :: start <= sq < rank * 8 + file ==> cells[sq] == EMPTY
    requires forall sq :: start <= sq < rank * 8 + 8 ==> Cells(q)[sq] == EMPTY
    ensures Disjoint(PlaceRank(q, RankText(cells, rank, file, emptyCount), start))
    ensures forall sq :: 0 <= sq < 64 ==>
      Cells(PlaceRank(q, RankText(cells, rank, file, emptyCount), start))[sq] ==
      if start <= sq < rank * 8 + 8 then cells[sq] else Cells(q)[sq]
    decreases 8 - file
  {
    if file == 8 {
      RankEndRoundTrip(cells, q, rank, emptyCount, start);
    } else if cells[rank * 8 + file] == EMPTY {
      RankRoundTrip(cells, q, rank, file + 1, emptyCount + 1, start);
    } else {
      var sq0 := rank * 8 + file;
      var q1 := AddPiece(q, sq0, cells[sq0]);
      PieceCells(cells, q, sq0);
      RankRoundTrip(cells, q1, rank, file + 1, 0, sq0 + 1);
      RankPieceStep(cells, q, rank, file, emptyCount, start);
    }
  }

  /** The end of a rank's text: a pending empty run is skipped and nothing is placed. */
  lemma RankEndRoundTrip(cells: seq<char>, q: Pieces, rank: int, emptyCount: int, start: int)
    requires CellsWellFormed(cells) && Disjoint(q) && 0 <= rank < 8 && 0 <= emptyCount <= 8
    requires start == rank * 8 + 8 - emptyCount
    requires forall sq :: start <= sq < rank * 8 + 8 ==> cells[sq] == EMPTY
    ensures PlaceRank(q, RankText(cells, rank, 8, emptyCount), start) == q
  {
    var text := RankText(cells, rank, 8, emptyCount);
    if emptyCount > 0 {
      assert text == [DigitChar(emptyCount)];
      assert PlaceRank(q, text, start) == PlaceRank(q, text[1..], start + emptyCount);
    }
  }

  /** Adding a piece letter on an empty square keeps the sets disjoint and changes
      that one cell. */
  lemma PieceCells(cells: seq<char>, q: Pieces, sq0: int)
    requires CellsWellFormed(cells) && Disjoint(q) && 0 <= sq0 < 64
    requires cells[sq0] != EMPTY && Cells(q)[sq0] == EMPTY
    ensures Disjoint(AddPiece(q, sq0, cells[sq0]))
    ensures Cells(AddPiece(q, sq0, cells[sq0])) == Cells(q)[sq0 := cells[sq0]]
  {
    CellsAt(q);
    AddToEmpty(q, sq0, cells[sq0]);
    assert IsPieceLetter(cells[sq0]);
  }

  /** The piece case of RankRoundTrip: what parsing the rest of the rank after the
      letter puts back, together with the letter, is what parsing from `start` does. */
  lemma RankPieceStep(cells: seq<char>, q: Pieces, rank: int, file: int, emptyCount: int, start: int)
    requires CellsWellFormed(cells) && Disjoint(q) && 0 <= rank < 8 && 0 <= emptyCount <= file < 8
    requires start == rank * 8 + file - emptyCount
    requires forall sq :: start <= sq < rank * 8 + file ==> cells[sq] == EMPTY
    requires forall sq :: start <= sq < rank * 8 + 8 ==> Cells(q)[sq] == EMPTY
    requires cells[rank * 8 + file] != EMPTY
    requires Cells(AddPiece(q, rank * 8 + file, cells[rank * 8 + file])) == Cells(q)[rank * 8 + file := cells[rank * 8 + file]]
    requires
      var q1 := AddPiece(q, rank * 8 + file, cells[rank * 8 + file]);
      var placed := PlaceRank(q1, RankText(cells, rank, file + 1, 0), rank * 8 + file + 1);
      && Disjoint(placed)
      && forall sq :: 0 <= sq < 64 ==>
           Cells(placed)[sq] == if rank * 8 + file + 1 <= sq < rank * 8 + 8 then cells[sq] else Cells(q1)[sq]
    ensures Disjoint(PlaceRank(q, RankText(cells, rank, file, emptyCount), start))
    ensures forall sq :: 0 <= sq < 64 ==>
      Cells(PlaceRank(q, RankText(cells, rank, file, emptyCount), start))[sq] ==
      if start <= sq < rank * 8 + 8 then cells[sq] else Cells(q)[sq]
  {
    var sq0 := rank * 8 + file;
    var q1 := AddPiece(q, sq0, cells[sq0]);
    assert IsPieceLetter(cells[sq0]);
    ReadPieceOfRank(cells, q, rank, file, emptyCount, start);
    ShiftStart(cells, Cells(q), Cells(q1), Cells(PlaceRank(q, RankText(cells, rank, file, emptyCount), start)), start, sq0, rank * 8 + 8);
  }

  /** A piece read at `at` extends the stretch of cells already read back, which
      started at `start` with empty squares, down to `start`. */
  lemma ShiftStart(cells: seq<char>, before: seq<char>, after: seq<char>, result: seq<char>,
                   start: int, at: int, end: int)
    requires |cells| == |before| == |after| == |result| == 64 && 0 <= start <= at < end <= 64
    requires after == before[at := cells[at]]
    requires forall sq :: start <= sq < at ==> cells[sq] == EMPTY && before[sq] == EMPTY
    requires forall sq :: 0 <= sq < 64 ==> result[sq] == if at + 1 <= sq < end then cells[sq] else after[sq]
    ensures forall sq :: 0 <= sq < 64 ==> result[sq] == if start <= sq < end then cells[sq] else before[sq]
  {
  }

  /** Reading a rank's text up to and including its next piece letter: skip the pending
      empty run, set that letter's bit. */
  lemma ReadPieceOfRank(cells: seq<char>, q: Pieces, rank: int, file: int, emptyCount: int, start: int)
    requires |cells| == 64 && 0 <= rank < 8 && 0 <= emptyCount <= file < 8
    requires start == rank * 8 + file - emptyCount
    requires IsPieceLetter(cells[rank * 8 + file])
    ensures PlaceRank(q, RankText(cells, rank, file, emptyCount), start) ==
      PlaceRank(AddPiece(q, rank * 8 + file, cells[rank * 8 + file]), RankText(cells, rank, file + 1, 0), rank * 8 + file + 1)
  {
    var piece := cells[rank * 8 + file];
    var rest := RankText(cells, rank, file + 1, 0);
    assert RankText(cells, rank, file, emptyCount) == EmptyRun(emptyCount) + [piece] + rest;
    ReadLetter(q, emptyCount, piece, rest, start, rank * 8 + file);
  }

  /** Reading an empty run and then a letter: skip the run, set the letter's bit. */
  lemma ReadLetter(q: Pieces, emptyCount: int, piece: char, rest: string, start: int, at: int)
    requires 0 <= emptyCount < 10 && !IsDigit(piece) && at == start + emptyCount
    ensures PlaceRank(q, EmptyRun(emptyCount) + [piece] + rest, start) ==
      PlaceRank(AddPiece(q, at, piece), rest, at + 1)
  {
    var text := EmptyRun(emptyCount) + [piece] + rest;
    assert PlaceRank(q, text, start) == PlaceRank(q, [piece] + rest, at) by {
      if emptyCount > 0 {
        assert text == [DigitChar(emptyCount)] + ([piece] + rest);
        assert text[1..] == [piece] + rest;
      } else {
        assert text == [piece] + rest;
      }
    }
    assert ([piece] + rest)[1..] == rest;
  }

  /** Parsing the rank texts from `rankIndex` on fills in the ranks below those already placed. */
  lemma {:induction false} RanksRoundTrip(cells: seq<char>, q: Pieces, rankIndex: int)
    requires CellsWellFormed(cells) && Disjoint(q) && 0 <= rankIndex <= 8
    requires forall sq :: 0 <= sq < 64 ==>
      Cells(q)[sq] == if sq >= (8 - rankIndex) * 8 then cells[sq] else EMPTY
    ensures Disjoint(PlaceRanks(q, RanksFrom(cells, 7), rankIndex))
    ensures Cells(PlaceRanks(q, RanksFrom(cells, 7), rankIndex)) == cells
    decreases 8 - rankIndex
  {
    if rankIndex < 8 {
      var rank := 7 - rankIndex;
      RankRoundTrip(cells, q, rank, 0, 0, rank * 8);
      RanksRoundTrip(cells, PlaceRank(q, RankText(cells, rank, 0, 0), rank * 8), rankIndex + 1);
    }
  }

  /** The fields of toFEN's text, as split on spaces. */
  function FenFields(b: Board): seq<string>
  {
    [PlacementText(Cells(b.pieces), 7), if b.isWhiteTurn then "w" else "b", CastlingText(b),
     EnPassantText(b.enPassantSquare), IntToString(b.halfMoveCount), "1"]
  }

  lemma FenStringIsJoin(b: Board)
    ensures FenString(b) == Join(FenFields(b), ' ')
  {
    var placement, side := PlacementText(Cells(b.pieces), 7), if b.isWhiteTurn then "w" else "b";
    var castling, enPassant := CastlingText(b), EnPassantText(b.enPassantSquare);
    var clock := IntToString(b.halfMoveCount);
    assert FenFields(b) == [placement, side, castling, enPassant, clock, "1"];
    JoinSix(placement, side, castling, enPassant, clock, "1", ' ');
    SideText();
  }

  /** The side field as toFEN appends it, with the spaces around it. */
  lemma SideText()
    ensures " w " == [' '] + "w" + [' '] && " b " == [' '] + "b" + [' ']
  {
  }

  lemma JoinSix(a: string, b: string, c: string, d: string, e: string, f: string, sep: char)
    ensures Join([a, b, c, d, e, f], sep) ==
      a + ([sep] + b + [sep]) + c + [sep] + d + [sep] + e + [sep] + f
  {
    var parts := [a, b, c, d, e, f];
    assert parts[1..][1..][1..][1..][1..] == [f];
    assert Join(parts[1..][1..][1..][1..], sep) == e + [sep] + f;
    assert Join(parts[1..][1..][1..], sep) == d + [sep] + (e + [sep] + f);
    assert Join(parts[1..][1..], sep) == c + [sep] + (d + [sep] + (e + [sep] + f));
    assert Join(parts[1..], sep) == b + [sep] + (c + [sep] + (d + [sep] + (e + [sep] + f)));
  }

  lemma CellsOfPieces(p: Pieces)
    ensures CellsWellFormed(Cells(p))
  {
    CellsAt(p);
  }

  /** No rank text holds a '/' or a space. */
  lemma RanksAvoidSeparators(cells: seq<char>)
    requires CellsWellFormed(cells)
    ensures forall i :: 0 <= i < 8 ==> '/' !in RanksFrom(cells, 7)[i] && ' ' !in RanksFrom(cells, 7)[i]
  {
    var ranks := RanksFrom(cells, 7);
    forall i | 0 <= i < 8 ensures '/' !in ranks[i] && ' ' !in ranks[i] {
      assert ranks[i] == RankText(cells, 7 - i, 0, 0);
      RankTextAvoids(cells, 7 - i);
    }
  }

  lemma RankTextAvoids(cells: seq<char>, rank: int)
    requires CellsWellFormed(cells) && 0 <= rank < 8
    ensures '/' !in RankText(cells, rank, 0, 0) && ' ' !in RankText(cells, rank, 0, 0)
  {
    RankTextChars(cells, rank, 0, 0);
  }

  /** A rank's text is never empty: eight squares give a letter or a count. */
  lemma {:induction false} RankTextNonEmpty(cells: seq<char>, rank: int, file: int, emptyCount: int)
    requires |cells| == 64 && 0 <= rank < 8 && 0 <= file <= 8 && emptyCount >= 0
    requires file < 8 || emptyCount > 0
    ensures |RankText(cells, rank, file, emptyCount)| > 0
    decreases 8 - file
  {
    if file < 8 && cells[rank * 8 + file] == EMPTY {
      RankTextNonEmpty(cells, rank, file + 1, emptyCount + 1);
    }
  }

  /** The placement field reads back as the bitboards it was written from. */
  lemma PlacementRoundTrip(p: Pieces)
    requires Disjoint(p)
    ensures ' ' !in PlacementText(Cells(p), 7)
    ensures |Split(PlacementText(Cells(p), 7), '/')| == 8
    ensures PlaceRanks(NoPieces, Split(PlacementText(Cells(p), 7), '/'), 0) == p
  {
    var cells := Cells(p);
    CellsOfPieces(p);
    var ranks := RanksFrom(cells, 7);
    RanksAvoidSeparators(cells);
    PlacementIsJoin(cells, 7);
    RankTextNonEmpty(cells, 0, 0, 0);
    SplitJoin(ranks, '/');
    JoinAvoids(ranks, '/', ' ');
    NoPiecesEmpty();
    RanksRoundTrip(cells, NoPieces, 0);
    CellsDetermine(PlaceRanks(NoPieces, ranks, 0), p);
  }

  /** toFEN's text splits on spaces into its six fields. */
  lemma FenSplit(b: Board)
    requires Disjoint(b.pieces)
    ensures Split(FenString(b), ' ') == FenFields(b)
  {
    var f := FenFields(b);
    PlacementRoundTrip(b.pieces);
    EnPassantTextAvoidsSpace(b.enPassantSquare);
    IntTextAvoidsSpace(b.halfMoveCount);
    FenStringIsJoin(b);
    SplitSix(f[0], f[1], f[2], f[3], f[4], f[5], ' ');
    assert f == [f[0], f[1], f[2], f[3], f[4], f[5]];
  }

  lemma IntTextAvoidsSpace(n: int)
    ensures ' ' !in IntToString(n)
  {
    var s := IntToString(n);
    assert IsDecimal(s);
    forall i | 0 <= i < |s|
      ensures s[i] != ' '
    {
      if i > 0 && !AllDigits(s) {
        assert s[1..][i - 1] == s[i];
      }
    }
  }

  lemma EnPassantTextAvoidsSpace(sq: int)
    ensures ' ' !in EnPassantText(sq)
  {
    if sq != -1 {
      var s := SquareToString(sq);
      IntTextAvoidsSpace(JavaDiv(sq, 8) + 1);
      assert s == [s[0]] + s[1..];
      assert s[0] != ' ';
    }
  }

  /** Reading back what toFEN writes reproduces the placement, the side to move, the
      castling rights, the en-passant square and the halfmove clock, for disjoint
      bitboards, a clock that fits an int and an en-passant square that is -1 or on
      the board. */
  lemma FenRoundTrip(b: Board)
    requires Disjoint(b.pieces) && INT_MIN <= b.halfMoveCount <= INT_MAX
    requires b.enPassantSquare == -1 || 0 <= b.enPassantSquare < 64
    ensures FieldsReadable(Split(FenString(b), ' '))
    ensures ParseFields(Split(FenString(b), ' ')) == b
  {
    FenSplit(b);
    FieldsRoundTrip(b);
  }

  /** The constructor reads toFEN's fields back as the position they were written from. */
  lemma FieldsRoundTrip(b: Board)
    requires Disjoint(b.pieces) && INT_MIN <= b.halfMoveCount <= INT_MAX
    requires b.enPassantSquare == -1 || 0 <= b.enPassantSquare < 64
    ensures FieldsReadable(FenFields(b))
    ensures ParseFields(FenFields(b)) == b
  {
    var f := FenFields(b);
    PlacementRoundTrip(b.pieces);
    IntRoundTrip(b.halfMoveCount);
    EnPassantRoundTrip(b.enPassantSquare);
    assert IsInteger(f[4]);
    var r := ParseFields(f);
    assert r.pieces == b.pieces;
    assert r.isWhiteTurn == b.isWhiteTurn;
    assert r.halfMoveCount == b.halfMoveCount;
    assert r.enPassantSquare == b.enPassantSquare;
  }

  /** The en-passant field reads back as the square it names. */
  lemma EnPassantRoundTrip(sq: int)
    requires sq == -1 || 0 <= sq < 64
    ensures '-' in EnPassantText(sq) || |EnPassantText(sq)| >= 2
    ensures EnPassantField(EnPassantText(sq)) == sq
  {
    if sq != -1 {
      var s := SquareToString(sq);
      assert s[0] != '-' && s[1] != '-';
      assert '-' !in s;
    }
  }

  /** One piece letter written after the pending run of empty squares. */
  lemma PieceStep(before: string, run: string, piece: char, rest: string, whole: string)
    requires before + ((run + [piece]) + rest) == whole
    ensures ((before + run) + [piece]) + rest == whole
  {
    Associative(before, run + [piece], rest);
    Associative(before, run, [piece]);
  }

  lemma Associative(a: string, b: string, c: string)
    ensures (a + b) + c == a + (b + c)
  {
  }

  lemma SplitSix(a: string, b: string, c: string, d: string, e: string, f: string, sep: char)
    requires sep !in a && sep !in b && sep !in c && sep !in d && sep !in e && sep !in f && f != ""
    ensures Split(Join([a, b, c, d, e, f], sep), sep) == [a, b, c, d, e, f]
  {
    SplitJoin([a, b, c, d, e, f], sep);
  }

  lemma {:induction false} JoinAvoids(parts: seq<string>, sep: char, c: char)
    requires |parts| >= 1 && c != sep
    requires forall i :: 0 <= i < |parts| ==> c !in parts[i]
    ensures c !in Join(parts, sep)
  {
    if |parts| > 1 {
      JoinAvoids(parts[1..], sep, c);
    }
  }
}
