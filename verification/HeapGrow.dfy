/**
 * The segment: its first creation with empty bins, and its growth at the end.
 */
module HeapGrow {
  import opened BinIndex
  import opened BinMaps
  import opened HeapLayout
  import opened HeapTrie
  import opened HeapBins
  import opened HeapEdits
  import opened HeapState
  import opened HeapTake
  import opened Words

  ghost function FreshLayout(start: nat): Layout {
    Layout(map[], start, start, start)
  }

  ghost function FirstLayout(start: nat, size: nat): Layout {
    Layout(map[], start, start, start + size)
  }

  /** Only headers on the rings, no tree. */
  ghost function EmptyBins(): Bins {
    Bins(map s: nat | s in SmallSizes() :: [Header(s / 8)], {}, map[], map[])
  }

  ghost function SmallSizes(): set<nat> {
    set i | 0 <= i < NBINS :: 8 * i
  }

  lemma EmptyBinsOk(l: Layout, m: Memory)
    requires forall b :: 0 <= b < NTREEBINS ==> Get(m, Root(b)) == 0
    ensures BinsOk(l, m, 0, 0, EmptyBins()) && EmptyBins().binned == {}
  {
    var z := EmptyBins();
    forall i | 0 <= i < NBINS ensures 8 * i in z.rings && !Marked(0, i) {
      EmptyMap(i);
      assert 8 * i in SmallSizes();
    }
    hide Get, Marked;
    forall s | s in z.rings ensures IsSmall(s) && s % 8 == 0 && z.rings[s] == [Header(s / 8)] {
      var i: nat :| i < NBINS && s == 8 * i;
    }
    assert Seats(z) == map[];
    hide Header, IsSmall;
    assert MapsOk(0, 0, z);
  }

  lemma FirstLayoutOk(start: nat, size: nat)
    requires STATIC_END <= start && start % 16 == 0 && size % 16 == 0 && 0 < size && size + TOP_FOOT <= ARENA
    ensures var l := FirstLayout(start, size);
      LayoutOk(l) && Live(l, Head(start)) && Live(l, Head(start + size)) && NoAdjacentFree(l)
    ensures forall i ::
      0 <= i < NBINS ==> Live(FirstLayout(start, size), Fd(Header(i))) && Live(FirstLayout(start, size), Bk(Header(i)))
  {
    Aligned(start, size);
  }

  lemma FirstRow(start: nat, size: nat, m: Memory)
    requires STATIC_END <= start && start % 16 == 0 && size % 16 == 0 && 0 < size && size + TOP_FOOT <= ARENA
    requires Get(m, Head(start)) == Tag(size, false, true) && Get(m, Head(start + size)) == TOP_FOOT
    ensures RowOk(FirstLayout(start, size), m)
  {
    FirstLayoutOk(start, size);
    TagPinuse(size, false, true);
    hide LayoutOk, NoAdjacentFree, Tag, Get, Pinuse, IsTag;
  }

  lemma NoUsers(l: Layout, l': Layout)
    requires l.chunks == map[]
    ensures KeepsUsed(l, l')
  {}

  lemma NoBlocks(l: Layout)
    requires l.chunks == map[]
    ensures Blocks(l) == map[] && forall d :: Binnable(l, d) == {}
    ensures forall m, m' :: UserSame(l, m, m')
  {}

  // ----- growth

  ghost function GrowWords(l: Layout, n: nat): map<Cell, nat>
    requires l.top <= l.end
  {
    map[Head(l.top) := Tag(l.end + n - l.top, false, true), Head(l.end + n) := TOP_FOOT]
  }

  lemma GrowLive(l: Layout, n: nat)
    requires LayoutOk(l) && n % 16 == 0 && l.end + n + TOP_FOOT <= l.base + ARENA
    ensures LayoutOk(Grow(l, n)) && Live(Grow(l, n), Head(l.top)) && Live(Grow(l, n), Head(l.end + n))
  {
    GrowOk(l, n);
  }

  lemma GrowRow(l: Layout, n: nat, m: Memory, m': Memory)
    requires RowOk(l, m) && n % 16 == 0 && n > 0 && l.end + n + TOP_FOOT <= l.base + ARENA
    requires Writes(Grow(l, n), m, m', GrowWords(l, n))
    ensures RowOk(Grow(l, n), m')
  {
    hide LayoutOk, TagsOk, Get, Tag, Pinuse, NoAdjacentFree, Writes, Live, GrowWords, Grow, TagsKept;
    GrowLive(l, n);
    TopPinuse(l, m);
    RowBounds(l, m);
    GrowReads(l, n, m, m');
    GrowApart(l, n);
    GrowTags(l, n, m, m');
  }

  lemma RowBounds(l: Layout, m: Memory)
    requires RowOk(l, m)
    ensures l.top <= l.end
  {}

  lemma GrowReads(l: Layout, n: nat, m: Memory, m': Memory)
    requires l.top <= l.end && Writes(Grow(l, n), m, m', GrowWords(l, n)) && Live(Grow(l, n), Head(l.top))
    requires Live(Grow(l, n), Head(l.end + n)) && n > 0
    ensures Get(m', Head(l.top)) == Tag(l.end + n - l.top, false, true) && Get(m', Head(l.end + n)) == TOP_FOOT
    ensures TagsKept(Grow(l, n), m, m', {l.top, l.end + n}, {})
  {
    hide Writes, Live, Get, Tag, TagsKept;
    WriteIs(Grow(l, n), m, m', GrowWords(l, n), Head(l.top));
    WriteIs(Grow(l, n), m, m', GrowWords(l, n), Head(l.end + n));
    hide Grow;
    WritesKeepTags(Grow(l, n), m, m', GrowWords(l, n), {l.top, l.end + n}, {});
  }

  lemma GrowApart(l: Layout, n: nat)
    requires NoAdjacentFree(l)
    ensures NoAdjacentFree(Grow(l, n))
  {
    forall x | FreeAt(Grow(l, n), x) ensures Fenced(Grow(l, n), x) { assert Fenced(l, x); }
  }

  lemma GrowSets(l: Layout, n: nat)
    ensures var l' := Grow(l, n);
      && Blocks(l') == Blocks(l) && KeepsUsed(l, l') && KeepsFree(l, l', {})
      && (forall d :: Binnable(l', d) == Binnable(l, d))
      && (forall dv, dvsize :: DvOk(l, dv, dvsize) ==> DvOk(l', dv, dvsize))
  {}

  lemma FirstAlign(start: nat)
    requires start % 4096 == 0
    ensures start % 16 == 0
  {
    assert start == 4096 * (start / 4096);
    Times4096(start / 4096);
  }

  /** What the words of a first segment read back as. */
  lemma FirstWords(l: Layout, m: Memory, m': Memory, w: map<Cell, nat>)
    requires Writes(l, m, m', w) && Live(l, Head(l.top)) && Live(l, Head(l.end))
    requires forall c :: c in w ==> IsRingCell(c) || IsTagCell(c)
    requires forall b :: 0 <= b < NTREEBINS ==> Get(m, Root(b)) == 0
    ensures forall b :: 0 <= b < NTREEBINS ==> Get(m', Root(b)) == 0
    ensures Head(l.top) in w ==> Get(m', Head(l.top)) == w[Head(l.top)]
    ensures Head(l.end) in w ==> Get(m', Head(l.end)) == w[Head(l.end)]
  {
    hide Get, UserSame;
    forall b | 0 <= b < NTREEBINS ensures Get(m', Root(b)) == 0 { assert Live(l, Root(b)); }
  }
}
