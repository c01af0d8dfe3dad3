/**
 * Sizes and bins of the allocator: request padding, the small and tree bin of a size, and the
 * size bits that steer a walk down a tree bin.
 */
module BinIndex {
  import opened Basics

  const WORD: nat := 0x1_0000_0000_0000_0000
  const HALF_WORD: nat := 0x8000_0000_0000_0000
  const MIN_CHUNK: nat := 32
  const MIN_LARGE: nat := 256
  const NTREEBINS: nat := 32
  const TOP_FOOT: nat := 80
  const MAX_SMALL_REQUEST: nat := 232
  const MIN_REQUEST: nat := 23
  const MAX_REQUEST: nat := WORD - 128

  /** Below this size the 32-bit narrowing inside the tree index loses nothing. */
  const ARENA: nat := 0x100_0000_0000

  /** Subtraction of machine words. */
  function Sub(a: nat, b: nat): nat
    requires a < WORD && b < WORD
  {
    if a >= b then a - b else WORD + a - b
  }

  function PadRequest(bytes: nat): nat {
    (bytes + 23) / 16 * 16
  }

  function Request2Size(bytes: nat): nat {
    if bytes < MIN_REQUEST then MIN_CHUNK else PadRequest(bytes)
  }

  function GranularityAlign(s: nat): nat {
    (s + 4095) / 4096 * 4096
  }

  predicate IsSmall(s: nat) {
    s / 8 < 32
  }

  function SmallIndex(s: nat): nat {
    s / 8
  }

  // ----- powers of two and shifts

  lemma {:induction false} Pow2Values()
    ensures Pow2(15) == 0x8000 && Pow2(16) == 0x1_0000
    ensures Pow2(22) == 0x40_0000 && Pow2(23) == 0x80_0000 && Pow2(24) == 0x100_0000
  {
    assert Pow2(8) == 256;
    assert Pow2(15) == 0x8000;
    assert Pow2(16) == 0x1_0000;
    assert Pow2(24) == 0x100_0000;
  }

  lemma {:induction false} Pow2Word()
    ensures Pow2(63) == HALF_WORD && Pow2(64) == WORD
  {
    assert Pow2(8) == 0x100;
    assert Pow2(16) == 0x1_0000;
    assert Pow2(24) == 0x100_0000;
    assert Pow2(32) == 0x1_0000_0000;
    assert Pow2(40) == 0x100_0000_0000;
    assert Pow2(48) == 0x1_0000_0000_0000;
    assert Pow2(56) == 0x100_0000_0000_0000;
    assert Pow2(63) == HALF_WORD;
  }

  /** The shift s >> n of a number. */
  function Shr(s: nat, n: nat): nat
    decreases n
  {
    if n == 0 then s else Shr(s / 2, n - 1)
  }

  /** The shift s << n of a machine word. */
  function Shl(s: nat, n: nat): (r: nat)
    requires s < WORD
    ensures r < WORD
    decreases n
  {
    if n == 0 then s else Shl(ShiftOne(s), n - 1)
  }

  function ShiftOne(k: nat): (r: nat)
    ensures r < WORD
  {
    2 * k % WORD
  }

  function SignBit(k: nat): (r: nat)
    requires k < WORD
    ensures r < 2
  {
    k / HALF_WORD
  }

  lemma {:induction false} ShrLast(s: nat, n: nat)
    ensures Shr(s, n + 1) == Shr(s, n) / 2
    decreases n
  {
    if n > 0 {
      ShrLast(s / 2, n - 1);
    }
  }

  lemma {:induction false} ShlLast(s: nat, n: nat)
    requires s < WORD
    ensures Shl(s, n + 1) == ShiftOne(Shl(s, n))
    decreases n
  {
    if n > 0 {
      ShlLast(ShiftOne(s), n - 1);
    }
  }

  lemma {:induction false} ShrMono(s: nat, t: nat, n: nat)
    requires s <= t
    ensures Shr(s, n) <= Shr(t, n)
    decreases n
  {
    if n > 0 {
      ShrMono(s / 2, t / 2, n - 1);
    }
  }

  lemma {:induction false} ShrOf(s: nat, n: nat, q: nat)
    requires q * Pow2(n) <= s < (q + 1) * Pow2(n)
    ensures Shr(s, n) == q
    decreases n
  {
    if n > 0 {
      assert Pow2(n) == 2 * Pow2(n - 1);
      Twice(q, Pow2(n - 1));
      Twice(q + 1, Pow2(n - 1));
      ShrOf(s / 2, n - 1, q);
    }
  }

  lemma Twice(q: nat, p: nat)
    ensures q * (2 * p) == 2 * (q * p)
  {}

  lemma {:induction false} ShrAdd(s: nat, a: nat, b: nat)
    ensures Shr(s, a + b) == Shr(Shr(s, a), b)
    decreases a
  {
    if a > 0 {
      ShrAdd(s / 2, a - 1, b);
    }
  }

  /** A high power of two only contributes high bits. */
  lemma {:induction false} ShrDropTop(s: nat, k: nat, n: nat)
    requires n < k
    ensures Shr(s + Pow2(k), n) == Shr(s, n) + Pow2(k - n)
    ensures Shr(s + Pow2(k), n) % 2 == Shr(s, n) % 2
    decreases n
  {
    if n > 0 {
      assert (s + Pow2(k)) / 2 == s / 2 + Pow2(k - 1);
      ShrDropTop(s / 2, k - 1, n - 1);
    }
  }

  lemma {:induction false} SignIsTopBit(s: nat)
    requires s < WORD
    ensures SignBit(s) == Shr(s, 63) % 2
  {
    Pow2Word();
    hide Pow2, Shr;
    if s >= HALF_WORD {
      ShrOf(s, 63, 1);
    } else {
      ShrOf(s, 63, 0);
    }
  }

  lemma HalfOfShiftOne(s: nat)
    requires s < WORD
    ensures ShiftOne(s) / 2 == if s >= HALF_WORD then s - HALF_WORD else s
  {}

  /** The sign bit of s << l is bit 63 - l of s. */
  lemma {:induction false} SignOfShl(s: nat, l: nat)
    requires s < WORD && l < 64
    ensures SignBit(Shl(s, l)) == Shr(s, 63 - l) % 2
    decreases l
  {
    if l == 0 {
      SignIsTopBit(s);
    } else {
      var t := ShiftOne(s);
      SignOfShl(t, l - 1);
      HalfOfShiftOne(s);
      hide SignBit, ShiftOne;
      assert Shr(t, 64 - l) == Shr(t / 2, 63 - l);
      if s >= HALF_WORD {
        Pow2Word();
        ShrDropTop(s - HALF_WORD, 63, 63 - l);
      }
    }
  }

  /** Position of the highest set bit. */
  function Log2(x: nat): (r: nat)
    requires x > 0
    ensures Pow2(r) <= x < 2 * Pow2(r)
  {
    if x < 2 then 0 else 1 + Log2(x / 2)
  }

  lemma {:induction false} Log2Below(x: nat, n: nat)
    requires 0 < x < Pow2(n)
    ensures Log2(x) < n
  {
    if n <= Log2(x) {
      Pow2Mono(n, Log2(x));
    }
  }

  // ----- the tree bin of a size

  /** The index of the tree bin of size s; s / 256 is narrowed to 32 bits first. */
  function TreeIndex(s: nat): (i: nat)
    ensures i < NTREEBINS
  {
    var x := s / 256 % 0x1_0000_0000;
    if x == 0 then 0
    else if x > 0xFFFF then NTREEBINS - 1
    else IndexOfNarrowed(s, x)
  }

  function IndexOfNarrowed(s: nat, x: nat): (i: nat)
    requires 0 < x <= 0xFFFF
    ensures i < NTREEBINS
  {
    Pow2Values();
    Log2Below(x, 16);
    2 * Log2(x) + Shr(s, Log2(x) + 7) % 2
  }

  /** The smallest size held in bin i. */
  function MinSize(i: nat): nat {
    if i % 2 == 0 then Pow2(i / 2 + 8) else Pow2(i / 2 + 8) + Pow2(i / 2 + 7)
  }

  /** Bin i holds the sizes from its minimum up to the next minimum; the last bin is unbounded. */
  predicate InBin(s: nat, i: nat) {
    MinSize(i) <= s && (i == NTREEBINS - 1 || s < MinSize(i + 1))
  }

  lemma {:induction false} MinSizeStep(i: nat)
    ensures MinSize(i) < MinSize(i + 1)
  {
    EvenBin(i / 2);
    OddBin(i / 2);
    hide MinSize;
    if i % 2 == 0 {
      assert i == 2 * (i / 2);
    } else {
      assert i == 2 * (i / 2) + 1;
    }
  }

  lemma {:induction false} MinSizeMono(i: nat, j: nat)
    requires i <= j
    ensures MinSize(i) <= MinSize(j)
    decreases j - i
  {
    if i < j {
      MinSizeMono(i, j - 1);
      MinSizeStep(j - 1);
    }
  }

  /** A size belongs to one bin only, and the bins are ordered by size. */
  lemma {:induction false} BinsOrdered(s: nat, t: nat, i: nat, j: nat)
    requires i < NTREEBINS && j < NTREEBINS
    requires InBin(s, i) && InBin(t, j)
    ensures i < j ==> s < t
    ensures s == t ==> i == j
  {
    hide MinSize;
    if i < j { MinSizeMono(i + 1, j); }
    if j < i { MinSizeMono(j + 1, i); }
  }

  /** The index arithmetic is right for every size of the arena. */
  lemma {:induction false} TreeIndexInBin(s: nat)
    requires MIN_LARGE <= s < ARENA
    ensures InBin(s, TreeIndex(s))
  {
    var x := s / 256;
    assert s / 256 % 0x1_0000_0000 == x;
    if x > 0xFFFF {
      LastBin(s);
    } else {
      NarrowedInBin(s, x);
    }
  }

  lemma {:induction false} NarrowedInBin(s: nat, x: nat)
    requires 0 < x <= 0xFFFF && x == s / 256
    ensures InBin(s, IndexOfNarrowed(s, x))
  {
    var k := Log2(x);
    Pow2Add8(k);
    NarrowBin(s, k);
  }

  lemma {:induction false} Pow2Add8(k: nat)
    ensures Pow2(k + 8) == 256 * Pow2(k)
  {
    assert Pow2(k + 8) == 4 * Pow2(k + 6);
    assert Pow2(k + 6) == 4 * Pow2(k + 4);
    assert Pow2(k + 4) == 4 * Pow2(k + 2);
    assert Pow2(k + 2) == 4 * Pow2(k);
  }

  lemma {:induction false} NarrowBin(s: nat, k: nat)
    requires Pow2(k + 8) <= s < 2 * Pow2(k + 8)
    ensures InBin(s, 2 * k + Shr(s, k + 7) % 2)
  {
    assert Pow2(k + 8) == 2 * Pow2(k + 7);
    hide Shr, MinSize, Pow2, InBin;
    if s < 3 * Pow2(k + 7) {
      ShrOf(s, k + 7, 2);
      InEvenBin(s, k);
    } else {
      ShrOf(s, k + 7, 3);
      InOddBin(s, k);
    }
  }

  lemma InEvenBin(s: nat, k: nat)
    requires 2 * Pow2(k + 7) <= s < 3 * Pow2(k + 7)
    ensures InBin(s, 2 * k)
  {
    EvenBin(k);
    OddBin(k);
    hide MinSize, Pow2;
  }

  lemma InOddBin(s: nat, k: nat)
    requires 3 * Pow2(k + 7) <= s < 4 * Pow2(k + 7)
    ensures InBin(s, 2 * k + 1)
  {
    OddBin(k);
    hide MinSize, Pow2;
  }

  lemma {:induction false} EvenBin(k: nat)
    ensures MinSize(2 * k) == 2 * Pow2(k + 7)
  {
    assert Pow2(k + 8) == 2 * Pow2(k + 7);
  }

  lemma {:induction false} OddBin(k: nat)
    ensures MinSize(2 * k + 1) == 3 * Pow2(k + 7)
    ensures MinSize(2 * k + 1 + 1) == 4 * Pow2(k + 7)
  {
    assert Pow2(k + 8) == 2 * Pow2(k + 7);
    assert Pow2(k + 9) == 2 * Pow2(k + 8);
    assert (2 * k + 1) / 2 == k && (2 * k + 2) / 2 == k + 1;
  }

  lemma {:induction false} LastBin(s: nat)
    requires s >= 0x100_0000
    ensures InBin(s, 31)
  {
    Pow2Values();
  }

  lemma {:induction false} OnlyLastBin(s: nat, i: nat)
    requires s >= 0x100_0000 && i < NTREEBINS
    ensures InBin(s, i) <==> i == 31
  {
    LastBin(s);
    if InBin(s, i) {
      BinsOrdered(s, s, i, 31);
    }
  }

  /**
   * Beyond the arena the narrowing of s / 256 to 32 bits matters. The index is right exactly when the
   * narrowed value still selects the last bin.
   */
  lemma {:induction false} TreeIndexInBinIff(s: nat)
    requires MIN_LARGE <= s < WORD
    ensures InBin(s, TreeIndex(s)) <==> s < ARENA || s / 256 % 0x1_0000_0000 >= 0xC000
  {
    if s < ARENA {
      TreeIndexInBin(s);
    } else {
      OnlyLastBin(s, TreeIndex(s));
      var x := s / 256 % 0x1_0000_0000;
      if 0 < x <= 0xFFFF {
        LastOfNarrowed(s, x);
      }
    }
  }

  lemma {:induction false} LastOfNarrowed(s: nat, x: nat)
    requires 0 < x <= 0xFFFF && x == s / 256 % 0x1_0000_0000
    ensures IndexOfNarrowed(s, x) == 31 <==> x >= 0xC000
  {
    Pow2Values();
    Log2Below(x, 16);
    hide Pow2, Log2, Shr;
    if x >= 0x8000 {
      Log2Above(x, 15);
      TopBits(s, x);
    } else {
      Log2Below(x, 15);
    }
  }

  lemma {:induction false} Log2Above(x: nat, n: nat)
    requires x >= Pow2(n)
    ensures n <= Log2(x)
  {
    if Log2(x) < n { Pow2Mono(Log2(x) + 1, n); }
  }

  /** For narrowed values in the top half of 16 bits, the second size bit separates the last two bins. */
  lemma {:induction false} TopBits(s: nat, x: nat)
    requires x == s / 256 % 0x1_0000_0000 && 0x8000 <= x <= 0xFFFF
    ensures Shr(s, 22) % 2 == if x >= 0xC000 then 1 else 0
  {
    var y := s / 256;
    Shr8(s);
    ShrAdd(s, 8, 14);
    Shr14(y);
    Bit14(y, x);
  }

  lemma {:induction false} Shr8(s: nat)
    ensures Shr(s, 8) == s / 256
  {
    ShrAdd(s, 4, 4);
  }

  lemma {:induction false} Shr14(s: nat)
    ensures Shr(s, 14) == s / 0x4000
  {
    ShrAdd(s, 7, 7);
    Shr7(s);
    Shr7(s / 128);
  }

  lemma {:induction false} Shr7(s: nat)
    ensures Shr(s, 7) == s / 128
  {
    ShrAdd(s, 4, 3);
  }

  lemma Bit14(y: nat, x: nat)
    requires x == y % 0x1_0000_0000 && 0x8000 <= x <= 0xFFFF
    ensures y / 0x4000 % 2 == if x >= 0xC000 then 1 else 0
  {
    var h := y / 0x1_0000_0000;
    assert y == 0x1_0000_0000 * h + x;
    Div14(y, 0x4_0000 * h + if x >= 0xC000 then 3 else 2);
    EvenPlus(h);
  }

  lemma Div14(y: nat, q: nat)
    requires 0x4000 * q <= y < 0x4000 * q + 0x4000
    ensures y / 0x4000 == q
  {}

  lemma EvenPlus(h: nat)
    ensures (0x4_0000 * h + 3) % 2 == 1 && (0x4_0000 * h + 2) % 2 == 0
  {
    Parity(0x4_0000 * h + 3, 0x2_0000 * h + 1, 1);
    Parity(0x4_0000 * h + 2, 0x2_0000 * h + 1, 0);
  }

  lemma Parity(n: nat, q: nat, r: nat)
    requires n == 2 * q + r && r < 2
    ensures n % 2 == r
  {}

  /** A size of 2^40 bytes is given the first tree bin although only the last bin may hold it. */
  lemma {:induction false} TreeIndexOutsideArena()
    ensures TreeIndex(ARENA) == 0 && !InBin(ARENA, TreeIndex(ARENA))
  {
    hide TreeIndex, InBin;
    TreeIndexInBinIff(ARENA);
    NarrowedZero();
  }

  lemma {:induction false} NarrowedZero()
    ensures TreeIndex(ARENA) == 0
  {
    hide IndexOfNarrowed;
  }

  // ----- the size bits that steer a tree walk

  /** Number of low size bits that a position in bin b may still decide. */
  function Width(b: nat): nat {
    if b == NTREEBINS - 1 then 64 else b / 2 + 7
  }

  /** The shift that puts the first undecided size bit of bin b in the sign position. */
  function LeftShift(b: nat): nat
    requires b < NTREEBINS
  {
    if b == NTREEBINS - 1 then 0 else 63 - (b / 2 + 6)
  }

  /** The part of size s that is decided at depth d of bin b. */
  function Pre(b: nat, s: nat, d: nat): nat
    requires d <= Width(b)
  {
    Shr(s, Width(b) - d)
  }

  /** The decided part at the root, common to all sizes of the bin. */
  function RootPre(b: nat): nat {
    if b == NTREEBINS - 1 then 0 else 2 + b % 2
  }

  /** The size bits still undecided at depth d, left-aligned in a machine word. */
  ghost function Undecided(b: nat, s: nat, d: nat): (r: nat)
    requires b < NTREEBINS && s < WORD
    ensures r < WORD
  {
    Shl(s, LeftShift(b) + d)
  }

  lemma {:induction false} PreHalf(b: nat, s: nat, d: nat)
    requires d < Width(b)
    ensures Pre(b, s, d) == Pre(b, s, d + 1) / 2
  {
    ShrLast(s, Width(b) - (d + 1));
  }

  lemma {:induction false} PreFull(b: nat, s: nat)
    ensures Pre(b, s, Width(b)) == s
  {}

  /** Decided parts are ordered as the sizes are. */
  lemma {:induction false} PreOrder(b: nat, s: nat, t: nat, d: nat)
    requires d <= Width(b)
    ensures Pre(b, s, d) < Pre(b, t, d) ==> s < t
    ensures s <= t ==> Pre(b, s, d) <= Pre(b, t, d)
  {
    if t <= s { ShrMono(t, s, Width(b) - d); }
    if s <= t { ShrMono(s, t, Width(b) - d); }
  }

  lemma {:induction false} RootPreOfBin(b: nat, s: nat)
    requires b < NTREEBINS && s < WORD && InBin(s, b)
    ensures Pre(b, s, 0) == RootPre(b)
  {
    if b == NTREEBINS - 1 {
      Pow2Word();
      hide Shr, Pow2;
      ShrOf(s, 64, 0);
    } else {
      RootPreNarrow(b, s, b / 2);
    }
  }

  lemma {:induction false} RootPreNarrow(b: nat, s: nat, k: nat)
    requires k == b / 2 && MinSize(b) <= s < MinSize(b + 1)
    ensures Shr(s, k + 7) == 2 + b % 2
  {
    EvenBin(k);
    OddBin(k);
    hide Shr, MinSize, Pow2;
    if b % 2 == 0 {
      assert b == 2 * k;
      ShrOf(s, k + 7, 2);
    } else {
      assert b == 2 * k + 1;
      ShrOf(s, k + 7, 3);
    }
  }

  /** The sign bit is the next decided bit, and one more shift moves on to the next depth. */
  lemma {:induction false} UndecidedStep(b: nat, s: nat, d: nat)
    requires b < NTREEBINS && d < Width(b) && s < WORD
    ensures var k := Undecided(b, s, d);
      && Pre(b, s, d + 1) == 2 * Pre(b, s, d) + SignBit(k)
      && ShiftOne(k) == Undecided(b, s, d + 1)
  {
    SignOfShl(s, LeftShift(b) + d);
    PreHalf(b, s, d);
    ShlLast(s, LeftShift(b) + d);
  }
}
