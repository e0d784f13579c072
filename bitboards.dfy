/** Squares and 64-bit occupancy masks.
    A Java `long` bitboard is modelled as the set of squares whose bit is set;
    bit i stands for square i = rank * 8 + file (0 = a1, 63 = h8). */
module Bitboards {

  /** A board square, 0 = a1 ... 63 = h8. */
  type Square = i: int | 0 <= i < 64

  /** A 64-bit mask, as the set of its set bits. */
  type Bitboard = set<Square>

  /** Every square of the board. */
  function AllSquares(): (all: Bitboard)
    ensures forall sq: Square :: sq in all
  {
    SquaresBelow(64)
  }

  /** Trigger-carrying range test for set comprehensions. */
  predicate Below(sq: int, n: int) { sq < n }

  /** The squares below `n`. */
  function SquaresBelow(n: int): (s: Bitboard)
    ensures forall sq: Square :: sq in s <==> sq < n
  {
    set sq: int | 0 <= sq < 64 && Below(sq, n)
  }

  /** Long.bitCount: the number of set bits. */
  function BitCount(b: Bitboard): (n: nat)
    ensures n <= 64
  {
    CardinalityOfRange(64);
    SubsetCardinality(b, AllSquares());
    |b|
  }

  lemma SubsetCardinality(a: Bitboard, b: Bitboard)
    requires a <= b
    ensures |a| <= |b|
  {
    assert b == a + (b - a);
  }

  lemma {:induction false} CardinalityOfRange(n: nat)
    requires n <= 64
    ensures |SquaresBelow(n)| == n
  {
    if n > 0 {
      CardinalityOfRange(n - 1);
      assert SquaresBelow(n) == SquaresBelow(n - 1) + {n - 1};
    } else {
      assert SquaresBelow(n) == {};
    }
  }

  /** Long.numberOfTrailingZeros: the lowest set bit, or 64 for the empty mask. */
  function NumberOfTrailingZeros(b: Bitboard): (n: int)
    ensures 0 <= n <= 64
    ensures n == 64 <==> b == {}
    ensures n < 64 ==> n in b && forall x :: x in b ==> n <= x
  {
    LowestFrom(b, 0)
  }

  /** The lowest member of `b`, scanning upwards from bit `i`; 64 when there is none. */
  function LowestFrom(b: Bitboard, i: int): (n: int)
    requires 0 <= i <= 64
    requires forall x :: x in b ==> i <= x
    ensures i <= n <= 64
    ensures n == 64 <==> b == {}
    ensures n < 64 ==> n in b && forall x :: x in b ==> n <= x
    decreases 64 - i
  {
    if i == 64 then 64 else if i in b then i else LowestFrom(b, i + 1)
  }

  /** The square of the lowest set bit of a non-empty mask. */
  function Lowest(b: Bitboard): (sq: Square)
    requires b != {}
    ensures sq in b && forall x :: x in b ==> sq <= x
  {
    NumberOfTrailingZeros(b)
  }

  /** The squares of `b` in the order `while (b != 0) { sq = ntz(b); b &= b - 1; }` visits them:
      ascending. */
  function Squares(b: Bitboard): (r: seq<Square>)
    ensures |r| == |b|
    ensures forall x :: x in r <==> x in b
    ensures forall i, j :: 0 <= i < j < |r| ==> r[i] < r[j]
    decreases |b|
  {
    if b == {} then []
    else
      var lo := Lowest(b);
      var rest := Squares(b - {lo});
      AboveLowest(b, lo, rest);
      [lo] + rest
  }

  /** Every square other than the lowest lies above it. */
  lemma AboveLowest(b: Bitboard, lo: Square, rest: seq<Square>)
    requires lo in b && forall x :: x in b ==> lo <= x
    requires forall x :: x in rest <==> x in b - {lo}
    ensures forall j :: 0 <= j < |rest| ==> lo < rest[j]
  {
    forall j | 0 <= j < |rest|
      ensures lo < rest[j]
    {
      assert rest[j] in rest;
    }
  }

  predicate OnFile(sq: int, file: int) { sq % 8 == file }

  /** The squares of one file: the Java mask 0x0101010101010101L << file. */
  function FileMask(file: int): (m: Bitboard)
    requires 0 <= file < 8
    ensures forall sq: Square :: sq in m <==> sq % 8 == file
  {
    set sq: int | 0 <= sq < 64 && OnFile(sq, file)
  }
}
