/**
 * What callers may do: write to the words of their own blocks. And what they may rely on: blocks are
 * disjoint and keep their contents.
 */
module HeapCaller {
  import opened BinIndex
  import opened BinMaps
  import opened HeapLayout
  import opened HeapBins
  import opened HeapOps
  import opened HeapEdits
  import opened HeapState
  import opened HeapTake
  import opened HeapResize
  import opened Words

  /** Only words that belong to callers differ. */
  ghost predicate CallerWrote(l: Layout, m: Memory, m': Memory) {
    forall a {:trigger Load(m', a)} :: !UserWord(l, a) ==> Load(m', a) == Load(m, a)
  }

  ghost predicate CellsSame(l: Layout, m: Memory, m': Memory) {
    forall c {:trigger Get(m', c)} :: Live(l, c) ==> Get(m', c) == Get(m, c)
  }

  /** The allocator does not notice what callers write. */
  lemma CallerKeeps(l: Layout, m: Memory, m': Memory, smallmap: bv32, treemap: bv32, z: Bins)
    requires RowOk(l, m) && BinsOk(l, m, smallmap, treemap, z) && CallerWrote(l, m, m')
    ensures RowOk(l, m') && BinsOk(l, m', smallmap, treemap, z)
  {
    hide BinsOk, LayoutOk, TagsOk, NoAdjacentFree, CallerWrote, CellsSame;
    CellsKept(l, m, m');
    CellsAll(l, m, m');
    RowKept(l, m, m');
    hide TagsSame;
    BinCellsKept(l, m, m', smallmap, treemap, z);
    BinsFrame(l, m, l, m', smallmap, treemap, z);
  }

  lemma CellsKept(l: Layout, m: Memory, m': Memory)
    requires LayoutOk(l) && CallerWrote(l, m, m')
    ensures CellsSame(l, m, m')
  {
    hide LayoutOk, Live, UserWord, Addr, Load;
    forall c | Live(l, c) ensures Get(m', c) == Get(m, c) {
      if UserWord(l, Addr(c)) { CellNotUser(l, c, Addr(c)); }
      assert Load(m', Addr(c)) == Load(m, Addr(c));
    }
  }

  lemma CellsAll(l: Layout, m: Memory, m': Memory)
    requires CellsSame(l, m, m')
    ensures TagsSame(l, m, m')
  {
    hide Live, Get;
  }

  lemma BinCellsKept(l: Layout, m: Memory, m': Memory, smallmap: bv32, treemap: bv32, z: Bins)
    requires BinsOk(l, m, smallmap, treemap, z) && CellsSame(l, m, m')
    ensures BinCellsSame(l, z, m, m')
  {
    BinCellsLive(l, z);
    hide BinsOk, Live, Get, BinCell;
  }

  /** A word belongs to one block at most. */
  lemma OneOwner(l: Layout, x: nat, y: nat, a: nat)
    requires LayoutOk(l) && UserWordOf(l, x, a) && UserWordOf(l, y, a)
    ensures x == y
  {
    assert ChunkOk(l, x) && ChunkOk(l, y);
    assert x < y ==> Apart(l, x, y);
    assert y < x ==> Apart(l, y, x);
  }

  /** The usable bytes of a block lie in words of its own. */
  lemma UsableByte(l: Layout, p: nat, r: nat, i: nat)
    requires LayoutOk(l) && p in Blocks(l) && i < Usable(l, p) && r == p + 16
    ensures var a := r + i - (r + i) % 8; UserWordOf(l, p, a) && UserWord(l, a)
  {
    assert ChunkOk(l, p);
    var k := p / 16;
    assert p == 16 * k;
    WordStart(2 * k + 2, i);
    var a := r + i - (r + i) % 8;
    assert UserWordOf(l, p, a);
  }

  /** The bytes of a block that its owner may use: all but the head word, up to the next head word. */
  ghost function Usable(l: Layout, p: nat): nat {
    if p in Blocks(l) && Blocks(l)[p] >= 8 then Blocks(l)[p] - 8 else 0
  }

  lemma WordStart(k: nat, i: nat)
    ensures (8 * k + i) - (8 * k + i) % 8 >= 8 * k && ((8 * k + i) - (8 * k + i) % 8) % 8 == 0
    ensures (8 * k + i) - (8 * k + i) % 8 <= 8 * k + i
  {
    Mod8(k + i / 8, i % 8);
    Mod8(k + i / 8, 0);
    assert 8 * k + i == 8 * (k + i / 8) + i % 8;
  }

  /** The caller's words of all blocks but the one at p are the same. */
  ghost predicate OthersSame(l: Layout, m: Memory, m': Memory, p: nat) {
    forall y, a {:trigger UserWordOf(l, y, a)} :: y != p && UserWordOf(l, y, a) ==> Load(m', a) == Load(m, a)
  }

  /** Byte i of the block handed out at r. */
  function BlockByte(m: Memory, r: nat, i: nat): nat {
    ByteAt(m, r + i)
  }

  /** The first n usable bytes of the block at r' are those the block at r had. */
  ghost predicate BytesMoved(m: Memory, m': Memory, r: nat, r': nat, n: nat) {
    forall i: nat :: i < n ==> BlockByte(m', r', i) == BlockByte(m, r, i)
  }

  function Min(a: nat, b: nat): nat {
    if a < b then a else b
  }

  /** Resizing in place keeps all the words that count. */
  lemma ResizedInPlace(l: Layout, l': Layout, m: Memory, m': Memory, p: nat, nb: nat, bytes: nat)
    requires LayoutOk(l) && LayoutOk(l') && BothSame(l, l', m, m') && p in Blocks(l) && p in Blocks(l')
    requires Blocks(l') == Blocks(l)[p := Blocks(l')[p]] && nb <= Blocks(l')[p] && bytes + 8 <= nb
    ensures OthersSame(l, m, m', p)
    ensures BytesMoved(m, m', p + 16, p + 16, Min(Usable(l, p), bytes))
  {
    hide LayoutOk, Load, ByteAt;
    var r := p + 16;
    forall y, a | y != p && UserWordOf(l, y, a) ensures Load(m', a) == Load(m, a) {
      assert y in Blocks(l) && y in Blocks(l');
      assert UserWordOf(l', y, a);
    }
    forall i: nat | i < Min(Usable(l, p), bytes) ensures BlockByte(m', r, i) == BlockByte(m, r, i) {
      UsableByte(l, p, r, i);
      UsableByte(l', p, r, i);
      SameBytes(m, m', r + i);
    }
  }

  // ----- moving a block

  /** Copying into a block touches only its words. */
  lemma CopyIsCallers(l: Layout, m: Memory, m': Memory, p: nat, n: nat)
    requires LayoutOk(l) && p in l.chunks && l.chunks[p].used && n + 8 <= l.chunks[p].size
    requires OnlyWords(m, m', p + 16, n)
    ensures CallerWrote(l, m, m') && OthersSame(l, m, m', p)
  {
    hide Load;
    forall a: nat | !UserWordOf(l, p, a) ensures Load(m', a) == Load(m, a) {
      assert ChunkOk(l, p);
      if a % 8 == 0 && p + 16 < a + 8 && a < p + 16 + n { WordInBlock(l, p, a, n); }
    }
    hide UserWordOf;
    forall y, a | y != p && UserWordOf(l, y, a) ensures Load(m', a) == Load(m, a) {
      if UserWordOf(l, p, a) { OneOwner(l, p, y, a); }
    }
    forall a | !UserWord(l, a) ensures Load(m', a) == Load(m, a) {
      assert !UserWordOf(l, p, a);
    }
  }

  lemma WordInBlock(l: Layout, p: nat, a: nat, n: nat)
    requires LayoutOk(l) && p in l.chunks && l.chunks[p].used && n + 8 <= l.chunks[p].size
    requires a % 8 == 0 && p + 16 < a + 8 && a < p + 16 + n
    ensures UserWordOf(l, p, a)
  {
    assert ChunkOk(l, p);
    assert p == 16 * (p / 16) && a == 8 * (a / 8);
  }

  lemma CopiedBytes(m: Memory, m': Memory, r: nat, r': nat, n: nat)
    requires Copied(m, m', r', r, n)
    ensures BytesMoved(m, m', r, r', n)
  {
    hide ByteAt;
  }

  /** The contents of the old block when the new one has just been allocated, and of the new one at the end. */
  lemma MovedBytes(l0: Layout, l1: Layout, l3: Layout, m0: Memory, m1: Memory, m2: Memory, m3: Memory, p: nat, p': nat,
                   n: nat)
    requires LayoutOk(l0) && LayoutOk(l3) && p in Blocks(l0) && p' in Blocks(l3)
    requires n <= Usable(l0, p) && n <= Usable(l3, p')
    requires UserSame(l0, m0, m1) && BytesMoved(m1, m2, p + 16, p' + 16, n) && UserSame(l3, m2, m3)
    ensures BytesMoved(m0, m3, p + 16, p' + 16, n)
  {
    hide LayoutOk, ByteAt, Load, Usable;
    var r, r' := p + 16, p' + 16;
    forall i: nat | i < n ensures BlockByte(m3, r', i) == BlockByte(m0, r, i) {
      UsableByte(l0, p, r, i);
      UsableByte(l3, p', r', i);
      SameBytes(m0, m1, r + i);
      SameBytes(m2, m3, r' + i);
      assert BlockByte(m2, r', i) == BlockByte(m1, r, i);
    }
  }

  /** The other blocks throughout a move: allocation, copy, and freeing of the old block. */
  lemma MovedOthers(l0: Layout, l1: Layout, l3: Layout, m0: Memory, m1: Memory, m2: Memory, m3: Memory, p: nat, p': nat)
    requires KeepBlocks(l0, l1) && KeepBlocksBut(l1, l3, p) && p' !in Blocks(l0)
    requires UserSame(l0, m0, m1) && OthersSame(l1, m1, m2, p') && UserSame(l3, m2, m3)
    ensures OthersSame(l0, m0, m3, p)
  {
    hide Load;
    forall y, a | y != p && UserWordOf(l0, y, a) ensures Load(m3, a) == Load(m0, a) {
      assert y in Blocks(l0) && y in Blocks(l1) && y in Blocks(l3);
      assert UserWordOf(l1, y, a) && UserWordOf(l3, y, a);
      assert UserWord(l0, a) && UserWord(l3, a);
    }
  }

  ghost predicate KeepBlocks(l: Layout, l': Layout) {
    forall y :: y in Blocks(l) ==> y in Blocks(l') && Blocks(l')[y] == Blocks(l)[y]
  }

  ghost predicate KeepBlocksBut(l: Layout, l': Layout, p: nat) {
    forall y :: y in Blocks(l) && y != p ==> y in Blocks(l') && Blocks(l')[y] == Blocks(l)[y]
  }

  /** What resizing the block before r promises. */
  ghost predicate Resized(l: Layout, l': Layout, m: Memory, m': Memory, r: nat, r': nat, bytes: nat)
    requires r >= 16 && r - 16 in Blocks(l)
  {
    && r' >= 16 && r' - 16 in Blocks(l')
    && Request2Size(bytes) <= Blocks(l')[r' - 16] < Request2Size(bytes) + MIN_CHUNK
    && Blocks(l') == (Blocks(l) - {r - 16})[r' - 16 := Blocks(l')[r' - 16]]
    && (r' == r || r' - 16 !in Blocks(l))
    && (r' == r <==> r - 16 in l.chunks && Growable(l, r - 16, Request2Size(bytes)))
    && OthersSame(l, m, m', r - 16)
    && BytesMoved(m, m', r, r', Min(Usable(l, r - 16), bytes))
  }

  lemma BlockSize(l: Layout, p: nat)
    requires LayoutOk(l) && p in Blocks(l)
    ensures p in l.chunks && l.chunks[p].used && l.chunks[p].size == Blocks(l)[p] && Blocks(l)[p] >= MIN_CHUNK
    ensures Usable(l, p) == Blocks(l)[p] - 8
  {
    assert ChunkOk(l, p);
  }

  /** The overflow test of calloc: the product is what the true product is, or the largest word. */
  lemma ProductChecked(n: nat, s: nat, req: nat)
    requires n < WORD && s < WORD
    requires n == 0 ==> req == 0
    requires n != 0 ==> req == if (n > 0xFFFF || s > 0xFFFF) && n * s % WORD / n != s then WORD - 1 else n * s % WORD
    ensures req == if n * s < WORD then n * s else WORD - 1
  {
    if n != 0 {
      if n * s < WORD {
        QuotientExact(n, s);
      } else {
        QuotientSmaller(n, s, n * s % WORD);
        if n <= 0xFFFF && s <= 0xFFFF { ProductSmall(n, s); }
      }
    }
  }

  lemma QuotientExact(n: nat, s: nat)
    requires n > 0
    ensures n * s / n == s
  {
    var q, x := n * s / n, n * s % n;
    assert n * s == n * q + x;
    hide *;
    if q < s { TimesLess(n, q, s); }
    if s < q { TimesLess(n, s, q); }
  }

  lemma QuotientSmaller(n: nat, s: nat, x: nat)
    requires n > 0 && x < n * s
    ensures x / n != s
  {
    assert n * (x / n) <= x;
  }

  lemma ProductGrows(a: nat, b: nat, s: nat)
    requires a <= b
    ensures a * s <= b * s
  {
    var d := b - a;
    assert b * s == a * s + d * s;
  }

  lemma ProductSmall(n: nat, s: nat)
    requires n <= 0xFFFF && s <= 0xFFFF
    ensures n * s < WORD
  {
    ProductGrows(n, 0xFFFF, s);
    ProductGrows(s, 0xFFFF, 0xFFFF);
  }

  lemma ClearedOthers(l0: Layout, l1: Layout, m0: Memory, m1: Memory, m2: Memory, p: nat)
    requires UserSame(l0, m0, m1) && OthersSame(l1, m1, m2, p) && KeepBlocks(l0, l1) && p !in Blocks(l0)
    ensures UserSame(l0, m0, m2)
  {
    hide Load;
    forall a | UserWord(l0, a) ensures Load(m2, a) == Load(m0, a) {
      var y :| UserWordOf(l0, y, a);
      assert y in Blocks(l0) && y in Blocks(l1);
      assert UserWordOf(l1, y, a);
    }
  }
}
