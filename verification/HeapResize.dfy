/**
 * Changing the size of a used chunk in place: into the free chunk behind it, into top, or by giving up
 * its tail; and the words of the caller that survive.
 */
module HeapResize {
  import opened BinIndex
  import opened BinMaps
  import opened HeapLayout
  import opened HeapBins
  import opened HeapEdits
  import opened HeapState
  import opened HeapTake
  import opened Words

  /** The caller's words of both layouts are the same in both memories. */
  ghost predicate BothSame(l: Layout, l': Layout, m: Memory, m': Memory) {
    forall a {:trigger Load(m', a)} :: UserWord(l, a) && UserWord(l', a) ==> Load(m', a) == Load(m, a)
  }

  lemma BothOf(l: Layout, l': Layout, m: Memory, m1: Memory, m': Memory)
    requires UserSame(l, m, m1) && UserSame(l', m1, m')
    ensures BothSame(l, l', m, m')
  {
    hide Load, UserWord;
  }

  /** After a block of l' has been freed on top. */
  lemma BothFreed(l: Layout, l1: Layout, l': Layout, m: Memory, m1: Memory, m': Memory, r: nat)
    requires BothSame(l, l1, m, m1) && UserSame(l', m1, m') && Blocks(l') == Blocks(l1) - {r}
    ensures BothSame(l, l', m, m')
  {
    BlocksFewer(l1, l', r);
    hide Load, Blocks;
    forall a | UserWord(l, a) && UserWord(l', a) ensures Load(m', a) == Load(m, a) {
      var y :| UserWordOf(l', y, a);
      assert UserWordOf(l1, y, a);
      hide UserWordOf;
      assert UserWord(l1, a);
    }
  }

  /** Whether the chunk at p can reach nb bytes where it is. */
  ghost predicate Growable(l: Layout, p: nat, nb: nat)
    requires p in l.chunks
  {
    var s, e := l.chunks[p].size, EndOf(l, p);
    s >= nb || (e == l.top && l.end - p > nb) || (FreeAt(l, e) && s + l.chunks[e].size >= nb)
  }

  // ----- into the free chunk behind

  lemma AfterAbsorb(l: Layout, p: nat, hi: nat, dv: nat, dvsize: nat, binned: set<nat>)
    requires LayoutOk(l) && Spare(l, p, hi) && l.chunks[p].used && DvOk(l, dv, dvsize)
    requires binned == Binnable(l, dv) - Inside(l, p, hi)
    ensures var l' := One(l, p, hi, true);
      && Blocks(l') == Blocks(l)[p := hi - p]
      && l'.base == l.base && l'.top == l.top && l'.end == l.end
      && (dv in Inside(l, p, hi) ==> DvOk(l', 0, 0) && binned == Binnable(l', 0))
      && (dv !in Inside(l, p, hi) ==> DvOk(l', dv, dvsize) && binned == Binnable(l', dv))
      && KeepsFree(l, l', Inside(l, p, hi)) && binned !! Inside(l, p, hi)
  {
    UsedSets(l, p, hi);
    ZeroNoChunk(l);
    hide LayoutOk, One, Inside, Spare, Blocks;
    var l' := One(l, p, hi, true);
    if dv in Inside(l, p, hi) {
      assert Binnable(l', 0) == Binnable(l, 0) - Inside(l, p, hi);
    } else {
      assert Binnable(l', dv) == Binnable(l, dv) - Inside(l, p, hi);
    }
  }

  lemma AfterCut(l: Layout, p: nat, r: nat, hi: nat, dv: nat, dvsize: nat, binned: set<nat>)
    requires LayoutOk(l) && Spare(l, p, hi) && l.chunks[p].used && DvOk(l, dv, dvsize) && p < r < hi
    requires binned == Binnable(l, dv) - Inside(l, p, hi) && dv !in Inside(l, p, hi)
    requires r !in Blocks(l)
    ensures var l' := Two(l, p, r, hi, true, true);
      && Blocks(l') - {r} == Blocks(l)[p := r - p] && r in l'.chunks && l'.chunks[r] == Chunk(hi - r, true)
      && l'.base == l.base && l'.top == l.top && l'.end == l.end
      && DvOk(l', dv, dvsize) && binned == Binnable(l', dv)
      && KeepsFree(l, l', Inside(l, p, hi)) && binned !! Inside(l, p, hi)
  {
    SplitSets(l, p, r, hi, true);
    ZeroNoChunk(l);
    hide LayoutOk, Two, Inside, Spare, Blocks;
    var l' := Two(l, p, r, hi, true, true);
    assert Binnable(l', dv) == Binnable(l, dv) - Inside(l, p, hi) + {};
    assert Blocks(l)[p := r - p][r := hi - r] - {r} == Blocks(l)[p := r - p];
  }

  /** Nothing in use starts inside the stretch. */
  lemma NoBlockInside(l: Layout, p: nat, r: nat, hi: nat)
    requires Spare(l, p, hi) && p < r < hi
    ensures r !in Blocks(l)
  {}

  lemma AfterCutDv(l: Layout, p: nat, r: nat, hi: nat, dv: nat, dvsize: nat, binned: set<nat>)
    requires LayoutOk(l) && Spare(l, p, hi) && l.chunks[p].used && DvOk(l, dv, dvsize) && p < r < hi
    requires binned == Binnable(l, dv) && Inside(l, p, hi) == {p, dv} && dv != 0
    ensures var l' := Two(l, p, r, hi, true, false);
      && Blocks(l') == Blocks(l)[p := r - p]
      && l'.base == l.base && l'.top == l.top && l'.end == l.end
      && DvOk(l', r, hi - r) && binned == Binnable(l', r)
      && KeepsFree(l, l', Inside(l, p, hi)) && binned !! Inside(l, p, hi)
  {
    SplitSets(l, p, r, hi, false);
    hide LayoutOk, Two, Inside, Spare, Blocks;
    var l' := Two(l, p, r, hi, true, false);
    assert Binnable(l', r) == Binnable(l, r) - {p, dv} + {};
    NotBinnable(l, dv, p);
    FreeInside(l, p, dv, r, binned);
  }

  lemma FreeInside(l: Layout, p: nat, dv: nat, r: nat, binned: set<nat>)
    requires p in l.chunks && l.chunks[p].used && binned == Binnable(l, dv)
    ensures r !in l.chunks || r == dv ==> binned == Binnable(l, r) - {p, dv}
    ensures binned !! {p, dv}
  {}

  // ----- into top

  /** The last chunk grows to n bytes at the expense of top. */
  ghost function Extend(l: Layout, p: nat, n: nat): Layout {
    TopTake(TopGive(l, p), n)
  }

  ghost function ExtendWords(l: Layout, m: Memory, p: nat, n: nat): map<Cell, nat>
    requires p + n <= l.end
  {
    map[Head(p) := Tag(n, true, Pinuse(Get(m, Head(p)))), Head(p + n) := Tag(l.end - (p + n), false, true)]
  }

  lemma ExtendLive(l: Layout, p: nat, n: nat)
    requires LayoutOk(l) && p in l.chunks && n % 16 == 0 && MIN_CHUNK <= n && p + n < l.end
    ensures LayoutOk(Extend(l, p, n)) && Live(Extend(l, p, n), Head(p)) && Live(Extend(l, p, n), Head(p + n))
  {
    TopGiveOk(l, p);
    TopGiveKeeps(l, p);
    TopTakeOk(TopGive(l, p), n);
  }

  lemma ExtendSets(l: Layout, p: nat, n: nat)
    requires LayoutOk(l) && p in l.chunks && l.chunks[p].used && EndOf(l, p) == l.top && n > 0
    ensures var l' := Extend(l, p, n);
      && Blocks(l') == Blocks(l)[p := n] && l'.base == l.base && l'.top == p + n && l'.end == l.end
      && (forall d {:trigger Binnable(l', d)} :: Binnable(l', d) == Binnable(l, d))
      && (forall y :: y in l.chunks && y != p ==> y in l'.chunks && l'.chunks[y] == l.chunks[y])
      && (forall y :: y in l'.chunks && y != p ==> y in l.chunks)
      && KeepsFree(l, l', {}) && p in l'.chunks && l'.chunks[p] == Chunk(n, true)
  {
    LastChunk(l, p);
    var l' := Extend(l, p, n);
    hide LayoutOk;
    var b, b' := Blocks(l)[p := n], Blocks(l');
    assert b.Keys == b'.Keys;
  }

  lemma LastChunk(l: Layout, p: nat)
    requires LayoutOk(l) && p in l.chunks && EndOf(l, p) == l.top
    ensures forall x :: x in l.chunks ==> x <= p && x < l.top
  {
    forall x | x in l.chunks ensures x <= p && x < l.top {
      BelowTop(l, x);
      assert p < x ==> Apart(l, p, x);
    }
  }

  lemma ExtendApart(l: Layout, p: nat, n: nat)
    requires LayoutOk(l) && NoAdjacentFree(l) && p in l.chunks && l.chunks[p].used && EndOf(l, p) == l.top && n > 0
    ensures NoAdjacentFree(Extend(l, p, n))
  {
    var l' := Extend(l, p, n);
    ExtendSets(l, p, n);
    forall x: nat | FreeAt(l', x) ensures Fenced(l', x) {
      assert FreeAt(l, x);
      assert Fenced(l, x);
      hide Extend, LayoutOk, Blocks, Binnable;
    }
  }

  lemma ExtendRow(l: Layout, p: nat, n: nat, m: Memory, m': Memory)
    requires RowOk(l, m) && p in l.chunks && l.chunks[p].used && EndOf(l, p) == l.top
    requires n % 16 == 0 && MIN_CHUNK <= n && p + n < l.end
    requires Writes(Extend(l, p, n), m, m', ExtendWords(l, m, p, n))
    ensures RowOk(Extend(l, p, n), m')
  {
    var l1, w := TopGive(l, p), ExtendWords(l, m, p, n);
    var h := Tag(l.end - p, false, Pinuse(Get(m, Head(p))));
    var m1 := m[Addr(Head(p)) := h];
    TopGiveLive(l, p);
    TopGiveKeeps(l, p);
    ExtendLive(l, p, n);
    hide LayoutOk, TagsOk, NoAdjacentFree, Get, Tag, Pinuse, TopGive, TopTake, Writes, Addr, Extend;
    WritesNone(l1, m);
    StoreFrame(l1, m, m, map[], Head(p), h);
    WriteIs(l1, m, m1, map[Head(p) := h], Head(p));
    WritesKeepTags(l1, m, m1, map[Head(p) := h], {p}, {});
    TopGiveTags(l, p, m, m1);
    ExtendTags(l, p, n, m, m1, m', h);
    ExtendApart(l, p, n);
  }

  lemma ExtendTags(l: Layout, p: nat, n: nat, m: Memory, m1: Memory, m': Memory, h: nat)
    requires LayoutOk(l) && p in l.chunks && n % 16 == 0 && MIN_CHUNK <= n && p + n < l.end
    requires h == Tag(l.end - p, false, Pinuse(Get(m, Head(p)))) && m1 == m[Addr(Head(p)) := h]
    requires TagsOk(TopGive(l, p), m1) && LayoutOk(TopGive(l, p))
    requires Writes(Extend(l, p, n), m, m', ExtendWords(l, m, p, n))
    ensures TagsOk(Extend(l, p, n), m')
  {
    ExtendLive(l, p, n);
    TopGiveKeeps(l, p);
    PlantedHead(l, p, m, m1, h);
    ExtendReads(l, p, n, m, m1, m', h);
    ExtendIs(l, p, n);
    hide *;
    TopTakeTags(TopGive(l, p), n, m1, m');
  }

  lemma ExtendReads(l: Layout, p: nat, n: nat, m: Memory, m1: Memory, m': Memory, h: nat)
    requires n > 0 && p + n <= l.end && m1 == m[Addr(Head(p)) := h]
    requires var l' := Extend(l, p, n);
      && LayoutOk(l') && Live(l', Head(p)) && Live(l', Head(p + n)) && Writes(l', m, m', ExtendWords(l, m, p, n))
    ensures Get(m', Head(p)) == Tag(n, true, Pinuse(Get(m, Head(p))))
    ensures Get(m', Head(p + n)) == Tag(l.end - (p + n), false, true)
    ensures TagsKept(Extend(l, p, n), m1, m', {p, p + n}, {})
  {
    var l', w := Extend(l, p, n), ExtendWords(l, m, p, n);
    hide LayoutOk, Get, Tag, Pinuse, Writes, Live, Addr, Extend;
    WriteIs(l', m, m', w, Head(p));
    WriteIs(l', m, m', w, Head(p + n));
    WritesKeepTags(l', m, m', w, {p, p + n}, {});
    hide TagsKept;
    TagsKeptOver(l', m, m1, m', p, h, {p, p + n});
  }

  lemma ExtendIs(l: Layout, p: nat, n: nat)
    ensures Extend(l, p, n) == TopTake(TopGive(l, p), n)
  {}

  lemma PlantedHead(l: Layout, p: nat, m: Memory, m1: Memory, h: nat)
    requires LayoutOk(l) && p in l.chunks && p < l.end
    requires h == Tag(l.end - p, false, Pinuse(Get(m, Head(p)))) && m1 == m[Addr(Head(p)) := h]
    ensures Pinuse(Get(m1, Head(p))) == Pinuse(Get(m, Head(p)))
  {
    RowBounds(l, p);
    TopEnd(l);
    Aligned(l.end, p);
    TagFields(l.end - p, false, Pinuse(Get(m, Head(p))));
    assert Get(m1, Head(p)) == h;
  }

  /** Overwriting the head word of p beforehand does not matter where that word is excepted. */
  lemma TagsKeptOver(l: Layout, m: Memory, m1: Memory, m': Memory, p: nat, h: nat, heads: set<nat>)
    requires LayoutOk(l) && Live(l, Head(p)) && m1 == m[Addr(Head(p)) := h] && TagsKept(l, m, m', heads, {})
    requires p in heads
    ensures TagsKept(l, m1, m', heads, {})
  {
    hide LayoutOk, Live;
    forall x | Live(l, Head(x)) && x !in heads ensures Get(m', Head(x)) == Get(m1, Head(x)) {
      if Addr(Head(x)) == Addr(Head(p)) { CellsDistinct(l, Head(x), Head(p)); }
    }
    forall x | Live(l, Foot(x)) ensures Get(m', Foot(x)) == Get(m1, Foot(x)) {
      if Addr(Foot(x)) == Addr(Head(p)) { CellsDistinct(l, Foot(x), Head(p)); }
    }
  }

  lemma PinuseSet(h: nat)
    ensures Pinuse(WithPinuse(h))
  {}

  lemma DvExtended(l: Layout, p: nat, n: nat, dv: nat, dvsize: nat)
    requires LayoutOk(l) && p in l.chunks && l.chunks[p].used && EndOf(l, p) == l.top && n > 0 && DvOk(l, dv, dvsize)
    ensures DvOk(Extend(l, p, n), dv, dvsize)
  {
    ExtendSets(l, p, n);
    hide LayoutOk, Extend, Blocks;
  }

  lemma BlockIs(l: Layout, p: nat)
    requires p in l.chunks && l.chunks[p].used
    ensures p in Blocks(l) && Blocks(l)[p] == l.chunks[p].size && Blocks(l) == Blocks(l)[p := l.chunks[p].size]
  {}

  lemma VictimApart(l: Layout, p: nat, dv: nat, dvsize: nat)
    requires LayoutOk(l) && p in l.chunks && l.chunks[p].used && DvOk(l, dv, dvsize)
    ensures dv != p
  {
    ZeroNoChunk(l);
  }

  lemma BothAfter(l: Layout, l': Layout, m: Memory, m1: Memory, m': Memory)
    requires UserSame(l, m, m1) && BothSame(l, l', m1, m')
    ensures BothSame(l, l', m, m')
  {
    hide Load, UserWord;
  }
}
