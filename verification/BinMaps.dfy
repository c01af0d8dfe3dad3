/**
 * The 32-bit bin maps of the allocator and the bit tricks that search them.
 * A map holds one bit per bin; a search never looks at a bin whose bit is clear.
 */
module BinMaps {

  const NBINS: nat := 32

  /** The bit for index i: 1 shifted left i times. */
  function Idx2Bit(i: nat): bv32
    requires i < NBINS
  {
    if i == 0 then 1 else Idx2Bit(i - 1) << 1
  }

  predicate Hits(m: bv32, b: bv32) {
    m & b != 0
  }

  predicate Marked(m: bv32, i: nat)
    requires i < NBINS
  {
    Hits(m, Idx2Bit(i))
  }

  function Mark(m: bv32, i: nat): bv32
    requires i < NBINS
  {
    Or(m, Idx2Bit(i))
  }

  function Clear(m: bv32, i: nat): bv32
    requires i < NBINS
  {
    And(m, Not(Idx2Bit(i)))
  }

  function And(a: bv32, b: bv32): bv32 { a & b }

  function Or(a: bv32, b: bv32): bv32 { a | b }

  function Not(a: bv32): bv32 { !a }

  /** Isolates the least set bit. */
  function LeastBit(x: bv32): bv32 {
    x & (0 - x)
  }

  /** A mask of the bits strictly above the least set bit. */
  function LeftBits(x: bv32): bv32 {
    (x << 1) | (0 - (x << 1))
  }

  /** The shift m >> i, one place at a time. */
  function ShiftRight(m: bv32, i: nat): bv32
    decreases i
  {
    if i == 0 then m else ShiftRight(Half(m), i - 1)
  }

  /** The shift m << i, one place at a time. */
  function ShiftLeft(m: bv32, i: nat): bv32
    decreases i
  {
    if i == 0 then m else ShiftLeft(Double(m), i - 1)
  }

  function Half(m: bv32): bv32 { m >> 1 }

  function Double(m: bv32): bv32 { m << 1 }

  /** The first set bit at or after position i. */
  function FirstFrom(x: bv32, i: nat): (r: nat)
    requires i < NBINS
    requires exists j :: i <= j < NBINS && Marked(x, j)
    ensures i <= r < NBINS && Marked(x, r)
    ensures forall j :: i <= j < r ==> !Marked(x, j)
    decreases NBINS - i
  {
    hide Marked;
    if Marked(x, i) then i else FirstFrom(x, i + 1)
  }

  /** The index of the least set bit (a count of trailing zeros). */
  function Bit2Idx(x: bv32): (r: nat)
    requires x != 0
    ensures r < NBINS && Marked(x, r)
    ensures forall j :: 0 <= j < r ==> !Marked(x, j)
  {
    hide Marked;
    NonZeroHasBit(x);
    FirstFrom(x, 0)
  }

  // ----- facts about single words

  predicate OneBit(b: bv32) {
    b != 0 && b & (b - 1) == 0
  }

  predicate Disjoint(a: bv32, b: bv32) {
    a & b == 0
  }

  predicate Low(b: bv32) {
    b < 0x8000_0000
  }

  /** No bit of x lies under the single bit b. */
  predicate NothingUnder(x: bv32, b: bv32) {
    x & (b - 1) == 0
  }

  lemma HitsOr(m: bv32, a: bv32, b: bv32)
    requires Disjoint(a, b)
    ensures Hits(Or(m, a), b) <==> Hits(m, b)
  {
    hide *;
    MeetsNot(m, a, b);
    HitsIs(Or(m, a), b);
    HitsIs(m, b);
  }

  lemma MeetsNot(m: bv32, a: bv32, b: bv32)
    requires Disjoint(a, b)
    ensures Meet(Or(m, a), b) == Meet(m, b)
  {}

  lemma HitsAndNot(m: bv32, a: bv32, b: bv32)
    requires Disjoint(a, b)
    ensures Hits(And(m, Not(a)), b) <==> Hits(m, b)
  {
    hide *;
    NotCovers(a, b);
    AndCovering(m, Not(a), b);
  }

  lemma NotCovers(a: bv32, b: bv32)
    requires Disjoint(a, b)
    ensures Covers(Not(a), b)
  {}

  lemma AndCovering(m: bv32, n: bv32, b: bv32)
    requires Covers(n, b)
    ensures Hits(And(m, n), b) <==> Hits(m, b)
  {
    hide *;
    MeetsCover(m, n, b);
    HitsIs(And(m, n), b);
    HitsIs(m, b);
  }

  predicate Covers(n: bv32, b: bv32) {
    n & b == b
  }

  function Meet(m: bv32, b: bv32): bv32 {
    m & b
  }

  lemma HitsIs(m: bv32, b: bv32)
    ensures Hits(m, b) <==> Meet(m, b) != 0
  {}

  lemma MeetsCover(m: bv32, n: bv32, b: bv32)
    requires Covers(n, b)
    ensures Meet(And(m, n), b) == Meet(m, b)
  {}

  lemma HitsSelf(m: bv32, a: bv32)
    requires OneBit(a)
    ensures Hits(Or(m, a), a) && !Hits(And(m, Not(a)), a)
  {
    assert (m | a) & a == a;
    assert (m & !a) & a == 0;
  }

  lemma HitsAnd(p: bv32, m: bv32, b: bv32)
    requires OneBit(b)
    ensures Hits(And(p, m), b) <==> Hits(p, b) && Hits(m, b)
  {
    if p & b != 0 { OneHot(p, b); }
    AndAssoc(p, m, b);
  }

  lemma OneHot(p: bv32, b: bv32)
    requires b & (b - 1) == 0 && p & b != 0
    ensures p & b == b
  {}

  lemma AndAssoc(p: bv32, m: bv32, b: bv32)
    ensures (p & m) & b == m & (p & b)
    ensures (p & m) & b == p & (m & b)
  {}

  lemma HitsZero(b: bv32)
    ensures !Hits(0, b)
  {}

  lemma DoubleIsEven(a: bv32)
    ensures Disjoint(1, Double(a)) && Disjoint(Double(a), 1)
  {}

  lemma DoubleDisjoint(a: bv32, b: bv32)
    requires Disjoint(a, b)
    ensures Disjoint(Double(a), Double(b))
  {
    AndDouble(a, b);
  }

  lemma DoubleOneBit(a: bv32)
    requires OneBit(a) && Low(a)
    ensures OneBit(Double(a))
  {}

  lemma MaskStep(x: bv32, a: bv32)
    requires OneBit(a) && NothingUnder(x, a) && !Hits(x, a)
    ensures NothingUnder(x, Double(a))
  {
    MaskDouble(a);
    OrMask(x, a - 1, a);
  }

  lemma MaskDouble(a: bv32)
    requires a & (a - 1) == 0 && a != 0
    ensures (a << 1) - 1 == (a - 1) | a
  {}

  lemma OrMask(x: bv32, p: bv32, q: bv32)
    requires x & p == 0 && x & q == 0
    ensures x & (p | q) == 0
  {}

  lemma UnderOne(x: bv32)
    ensures NothingUnder(x, 1)
  {}

  lemma UnderTop(x: bv32)
    requires NothingUnder(x, 0x8000_0000) && !Hits(x, 0x8000_0000)
    ensures x == 0
  {
    OrMask(x, 0x7FFF_FFFF, 0x8000_0000);
    AllOnes(x);
  }

  lemma AllOnes(x: bv32)
    ensures x & (0x7FFF_FFFF | 0x8000_0000) == x
  {}

  lemma LeastBitExact(x: bv32, a: bv32)
    requires OneBit(a) && Hits(x, a) && NothingUnder(x, a)
    ensures LeastBit(x) == a
  {}

  lemma LeastBitNonZero(x: bv32)
    requires x != 0
    ensures LeastBit(x) != 0
  {}

  lemma AndDouble(p: bv32, q: bv32)
    ensures (p << 1) & (q << 1) == (p & q) << 1
  {}

  lemma DoubleNonZero(c: bv32, b: bv32)
    requires b < 0x8000_0000
    ensures (c & b) << 1 != 0 <==> c & b != 0
  {}

  lemma HitsDouble(m: bv32, b: bv32)
    requires Low(b)
    ensures Hits(Double(m), Double(b)) <==> Hits(m, b)
  {
    AndDouble(m, b);
    DoubleNonZero(m, b);
  }

  lemma HitsHalf(m: bv32, a: bv32)
    requires Low(a)
    ensures Hits(Half(m), a) <==> Hits(m, Double(a))
  {
    HalfAnd(m, a);
    HalfZero(m & Double(a));
  }

  lemma HalfAnd(m: bv32, a: bv32)
    requires a < 0x8000_0000
    ensures Half(m) & a == (m & Double(a)) >> 1
    ensures (m & Double(a)) & 1 == 0
  {}

  lemma HalfZero(c: bv32)
    requires c & 1 == 0
    ensures c >> 1 == 0 <==> c == 0
  {}

  lemma HalfNotTop(m: bv32)
    ensures !Hits(Half(m), 0x8000_0000)
  {}

  lemma LeftBitsDouble(a: bv32)
    ensures LeftBits(Double(a)) == Double(LeftBits(a))
  {
    var c := a << 1;
    NegDouble(c);
    OrDouble(c, 0 - c);
  }

  lemma NegDouble(b: bv32)
    ensures 0 - (b << 1) == (0 - b) << 1
  {}

  lemma OrDouble(p: bv32, q: bv32)
    ensures (p << 1) | (q << 1) == (p | q) << 1
  {}

  lemma LeftBitsOne()
    ensures LeftBits(1) == Double(0xFFFF_FFFF)
    ensures !Hits(LeftBits(1), 1)
  {}

  lemma AllHit(b: bv32)
    requires OneBit(b)
    ensures Hits(0xFFFF_FFFF, b)
  {}

  lemma LowTwoBits(s: bv32)
    ensures s & 3 != 0 <==> s & 1 != 0 || s & 2 != 0
    ensures (!s) & 1 == 1 <==> s & 1 == 0
  {}

  // ----- the bits of the indices

  lemma BitValues()
    ensures Idx2Bit(0) == 0x1 && Idx2Bit(1) == 0x2
    ensures Idx2Bit(31) == 0x8000_0000
    ensures forall i :: 0 <= i < NBINS - 1 ==> Low(Idx2Bit(i))
  {
    assert Idx2Bit(4) == 0x10; assert Idx2Bit(8) == 0x100; assert Idx2Bit(12) == 0x1000; assert Idx2Bit(16) == 0x1_0000;
    assert Idx2Bit(20) == 0x10_0000; assert Idx2Bit(24) == 0x100_0000; assert Idx2Bit(28) == 0x1000_0000;
    forall i | 0 <= i < NBINS - 1 ensures Low(Idx2Bit(i)) {
      assert i == 0 || i == 1 || i == 2 || i == 3 || i == 4 || i == 5 || i == 6 || i == 7 || i == 8
          || i == 9 || i == 10 || i == 11 || i == 12 || i == 13 || i == 14 || i == 15 || i == 16
          || i == 17 || i == 18 || i == 19 || i == 20 || i == 21 || i == 22 || i == 23 || i == 24
          || i == 25 || i == 26 || i == 27 || i == 28 || i == 29 || i == 30;
    }
  }

  lemma BitStep(i: nat)
    requires i + 1 < NBINS
    ensures Idx2Bit(i + 1) == Double(Idx2Bit(i))
  {}

  lemma {:induction false} IsOneBit(i: nat)
    requires i < NBINS
    ensures OneBit(Idx2Bit(i))
  {
    if i > 0 {
      IsOneBit(i - 1);
      BitValues();
      BitStep(i - 1);
      hide *;
      DoubleOneBit(Idx2Bit(i - 1));
    }
  }

  lemma {:induction false} BitsDistinct(i: nat, j: nat)
    requires i < NBINS && j < NBINS && i != j
    ensures Disjoint(Idx2Bit(i), Idx2Bit(j))
    decreases i + j
  {
    BitValues();
    hide *;
    if i == 0 {
      BitStep(j - 1);
      DoubleIsEven(Idx2Bit(j - 1));
    } else if j == 0 {
      BitStep(i - 1);
      DoubleIsEven(Idx2Bit(i - 1));
    } else {
      BitsDistinct(i - 1, j - 1);
      BitStep(i - 1);
      BitStep(j - 1);
      DoubleDisjoint(Idx2Bit(i - 1), Idx2Bit(j - 1));
    }
  }

  lemma {:induction false} NonZeroHasBit(x: bv32)
    requires x != 0
    ensures exists j :: 0 <= j < NBINS && Marked(x, j)
  {
    if !exists j :: 0 <= j < NBINS && Marked(x, j) {
      forall j | 0 <= j < 31 ensures !Marked(x, j) {}
      assert !Marked(x, 31);
      UnderIdx(x, 31);
      BitValues();
      UnderTop(x);
    }
  }

  /** If no position below k is set, no bit of x lies under bit k. */
  lemma {:induction false} UnderIdx(x: bv32, k: nat)
    requires k < NBINS
    requires forall j :: 0 <= j < k ==> !Marked(x, j)
    ensures NothingUnder(x, Idx2Bit(k))
  {
    if k == 0 {
      UnderOne(x);
    } else {
      assert !Marked(x, k - 1);
      assert !Hits(x, Idx2Bit(k - 1));
      hide *;
      UnderIdx(x, k - 1);
      IsOneBit(k - 1);
      MaskStep(x, Idx2Bit(k - 1));
      BitStep(k - 1);
    }
  }

  // ----- marking and clearing

  lemma {:induction false} MarkClear(m: bv32, i: nat, j: nat)
    requires i < NBINS && j < NBINS
    ensures Marked(Mark(m, i), j) <==> i == j || Marked(m, j)
    ensures Marked(Clear(m, i), j) <==> i != j && Marked(m, j)
  {
    hide Idx2Bit, Hits, Or, And, Not;
    var a, b := Idx2Bit(i), Idx2Bit(j);
    if i != j {
      BitsDistinct(i, j);
      HitsOr(m, a, b);
      HitsAndNot(m, a, b);
    } else {
      IsOneBit(i);
      HitsSelf(m, a);
    }
  }

  // ----- searching

  /** The bits of LeftBits(bit i) are exactly the positions above i. */
  lemma {:induction false} LeftBitsOfBit(i: nat, j: nat)
    requires i < NBINS && j < NBINS
    ensures Marked(LeftBits(Idx2Bit(i)), j) <==> i < j
    decreases i
  {
    BitValues();
    hide Idx2Bit, Hits, Double, LeftBits, Low;
    if i == 0 {
      LeftBitsOne();
      if j > 0 {
        BitStep(j - 1);
        HitsDouble(0xFFFF_FFFF, Idx2Bit(j - 1));
        IsOneBit(j - 1);
        AllHit(Idx2Bit(j - 1));
      }
    } else {
      BitStep(i - 1);
      var l := LeftBits(Idx2Bit(i - 1));
      LeftBitsDouble(Idx2Bit(i - 1));
      if j == 0 {
        DoubleIsEven(l);
        EvenNotHit(Double(l));
      } else {
        LeftBitsOfBit(i - 1, j - 1);
        BitStep(j - 1);
        HitsDouble(l, Idx2Bit(j - 1));
      }
    }
  }

  lemma EvenNotHit(c: bv32)
    requires Disjoint(c, 1)
    ensures !Hits(c, 1)
  {}

  /** The least bit of x keeps exactly the lowest position of x. */
  lemma {:induction false} LeastBitIsLowest(x: bv32)
    requires x != 0
    ensures LeastBit(x) != 0 && Bit2Idx(LeastBit(x)) == Bit2Idx(x)
  {
    hide LeastBit, Hits, Idx2Bit;
    LeastBitNonZero(x);
    var k, l := Bit2Idx(x), Bit2Idx(LeastBit(x));
    UnderIdx(x, k);
    IsOneBit(k);
    LeastBitExact(x, Idx2Bit(k));
    if k != l {
      BitsDistinct(k, l);
      NotBoth(Idx2Bit(k), Idx2Bit(l));
    }
  }

  lemma NotBoth(a: bv32, b: bv32)
    requires Disjoint(a, b)
    ensures !Hits(a, b)
  {}

  lemma {:induction false} AndMarked(p: bv32, m: bv32, j: nat)
    requires j < NBINS
    ensures Marked(And(p, m), j) <==> Marked(p, j) && Marked(m, j)
  {
    hide Idx2Bit, Hits, And;
    IsOneBit(j);
    HitsAnd(p, m, Idx2Bit(j));
  }

  lemma {:induction false} NothingMarked(j: nat)
    requires j < NBINS
    ensures !Marked(0, j)
  {
    hide Idx2Bit;
    HitsZero(Idx2Bit(j));
  }

  /** Masking with the left bits of bit idx and isolating the least bit finds the next marked bin above idx. */
  lemma {:induction false} NextMarked(m: bv32, idx: nat)
    requires idx < NBINS
    ensures var l := And(LeftBits(Idx2Bit(idx)), m);
      && (l == 0 <==> forall j :: idx < j < NBINS ==> !Marked(m, j))
      && (l != 0 ==>
            && LeastBit(l) != 0
            && var i := Bit2Idx(LeastBit(l));
               idx < i && Marked(m, i) && forall j :: idx < j < i ==> !Marked(m, j))
  {
    hide *;
    var p := LeftBits(Idx2Bit(idx));
    var l := And(p, m);
    forall j | 0 <= j < NBINS ensures Marked(l, j) <==> idx < j && Marked(m, j) {
      AndMarked(p, m, j);
      LeftBitsOfBit(idx, j);
    }
    NonZeroIffMarked(l);
    if l != 0 {
      LeastBitIsLowest(l);
    }
  }

  lemma {:induction false} NonZeroIffMarked(l: bv32)
    ensures l == 0 <==> forall j :: 0 <= j < NBINS ==> !Marked(l, j)
  {
    hide *;
    if l == 0 {
      forall j | 0 <= j < NBINS ensures !Marked(0, j) { NothingMarked(j); }
    } else {
      NonZeroHasBit(l);
    }
  }

  /** The least marked bin of a non-empty map. */
  lemma {:induction false} FirstMarked(m: bv32)
    requires m != 0
    ensures LeastBit(m) != 0
    ensures var i := Bit2Idx(LeastBit(m)); Marked(m, i) && forall j :: 0 <= j < i ==> !Marked(m, j)
  {
    hide *;
    LeastBitIsLowest(m);
  }

  lemma {:induction false} ShiftRightMarked(m: bv32, i: nat, j: nat)
    requires i < NBINS && j < NBINS
    ensures Marked(ShiftRight(m, i), j) <==> i + j < NBINS && Marked(m, i + j)
    decreases i
  {
    hide Half, Marked;
    if i > 0 {
      ShiftRightMarked(Half(m), i - 1, j);
      if i - 1 + j < NBINS {
        HalfMarked(m, i - 1 + j);
      }
    }
  }

  lemma {:induction false} HalfMarked(m: bv32, j: nat)
    requires j < NBINS
    ensures Marked(Half(m), j) <==> j + 1 < NBINS && Marked(m, j + 1)
  {
    BitValues();
    hide Idx2Bit, Hits, Half, Double, Low;
    if j + 1 < NBINS {
      BitStep(j);
      HitsHalf(m, Idx2Bit(j));
    } else {
      HalfNotTop(m);
    }
  }

  lemma {:induction false} ShiftLeftMarked(m: bv32, i: nat, j: nat)
    requires i < NBINS && j < NBINS
    ensures Marked(ShiftLeft(m, i), j) <==> i <= j && Marked(m, j - i)
    decreases i
  {
    hide Double, Marked;
    if i > 0 {
      ShiftLeftMarked(Double(m), i - 1, j);
      if i - 1 <= j {
        DoubleMarked(m, j - (i - 1));
      }
    }
  }

  lemma {:induction false} DoubleMarked(m: bv32, j: nat)
    requires j < NBINS
    ensures Marked(Double(m), j) <==> 0 < j && Marked(m, j - 1)
  {
    BitValues();
    hide Idx2Bit, Hits, Double, Low;
    if j == 0 {
      DoubleIsEven(m);
      EvenNotHit(Double(m));
    } else {
      BitStep(j - 1);
      HitsDouble(m, Idx2Bit(j - 1));
    }
  }

  /** Whether one of the two lowest bits is set. */
  predicate LowTwo(s: bv32) {
    s & 3 != 0
  }

  /** The complement of the low bit, as a number. */
  function LowBitClear(s: bv32): nat {
    if (!s) & 1 == 1 then 1 else 0
  }

  lemma LowBits(s: bv32)
    ensures LowTwo(s) <==> Hits(s, 1) || Hits(s, 2)
    ensures LowBitClear(s) == if Hits(s, 1) then 0 else 1
  {
    LowTwoBits(s);
  }

  /**
   * The small-bin tests of an allocation: the low two bits of the shifted map tell whether bin idx or
   * idx + 1 is non-empty, and the complement of the low bit moves on to the second.
   */
  lemma {:induction false} RemainderlessFit(m: bv32, idx: nat)
    requires idx + 1 < NBINS
    ensures var s := ShiftRight(m, idx);
      && (LowTwo(s) <==> Marked(m, idx) || Marked(m, idx + 1))
      && (LowTwo(s) ==> idx + LowBitClear(s) < NBINS && Marked(m, idx + LowBitClear(s)))
      && (LowTwo(s) ==> (LowBitClear(s) == 0 <==> Marked(m, idx)))
  {
    var s := ShiftRight(m, idx);
    ShiftRightMarked(m, idx, 0);
    ShiftRightMarked(m, idx, 1);
    BitValues();
    hide ShiftRight, LowTwo, LowBitClear, Hits;
    LowBits(s);
  }

  /** Shifting down, back up, and masking with the left bits searches the small bins above idx. */
  lemma {:induction false} NextSmallMarked(m: bv32, idx: nat)
    requires idx < NBINS
    ensures var s := ShiftRight(m, idx);
      && (s == 0 <==> forall j :: idx <= j < NBINS ==> !Marked(m, j))
      && var l := And(ShiftLeft(s, idx), LeftBits(Idx2Bit(idx)));
         && (l == 0 <==> forall j :: idx < j < NBINS ==> !Marked(m, j))
         && (l != 0 ==>
               && LeastBit(l) != 0
               && var i := Bit2Idx(LeastBit(l));
                  idx < i && Marked(m, i) && forall j :: idx < j < i ==> !Marked(m, j))
  {
    hide *;
    var s := ShiftRight(m, idx);
    var p := LeftBits(Idx2Bit(idx));
    var t := ShiftLeft(s, idx);
    var l := And(t, p);
    forall j | 0 <= j < NBINS ensures Marked(s, j) <==> idx + j < NBINS && Marked(m, idx + j) {
      ShiftRightMarked(m, idx, j);
    }
    forall j | 0 <= j < NBINS ensures Marked(l, j) <==> idx < j && Marked(m, j) {
      AndMarked(t, p, j);
      LeftBitsOfBit(idx, j);
      ShiftLeftMarked(s, idx, j);
    }
    NonZeroIffMarked(s);
    NonZeroIffMarked(l);
    forall j | idx <= j < NBINS ensures Marked(m, j) <==> Marked(s, j - idx) {}
    if l != 0 {
      LeastBitIsLowest(l);
    }
  }
}
