/**
 * The whole-heap invariant apart from the bins' insides, and what each edit of the row means for it.
 */
module HeapState {
  import opened BinIndex
  import opened BinMaps
  import opened HeapLayout
  import opened HeapBins
  import opened HeapOps
  import opened HeapEdits
  import opened HeapTrie
  import opened HeapWalk
  import opened Words

  /** The chunks in use, by address. */
  ghost function Blocks(l: Layout): map<nat, nat> {
    map x | x in l.chunks && l.chunks[x].used :: l.chunks[x].size
  }

  /** The designated victim is a free chunk of the recorded size, or absent. */
  ghost predicate DvOk(l: Layout, dv: nat, dvsize: nat) {
    && (dv == 0 <==> dvsize == 0)
    && (dv != 0 ==> FreeAt(l, dv) && l.chunks[dv].size == dvsize)
  }

  /** The free chunks that belong into bins: all but the designated victim. */
  ghost function Binnable(l: Layout, dv: nat): set<nat> {
    set x | x in l.chunks && !l.chunks[x].used && x != dv
  }

  /** Layout, tags and separation of free chunks. */
  ghost predicate RowOk(l: Layout, m: Memory) {
    LayoutOk(l) && TagsOk(l, m) && NoAdjacentFree(l)
  }

  /** Tag writes in a new layout do not disturb the bins. */
  lemma BinsAcross(l: Layout, l': Layout, m: Memory, m': Memory, w: map<Cell, nat>, smallmap: bv32, treemap: bv32,
                   z: Bins)
    requires BinsOk(l, m, smallmap, treemap, z)
    requires Writes(l', m, m', w) && forall c :: c in w ==> IsTagCell(c)
    requires forall c :: c in z.binned && c in l.chunks ==> c in l'.chunks && l'.chunks[c] == l.chunks[c]
    ensures BinsOk(l', m', smallmap, treemap, z)
  {
    hide BinsOk, Writes, LinksSame;
    OnlyTagWrites(l', m, m', w);
    SameCells(l, l', m, m', smallmap, treemap, z);
    BinsFrame(l, m, l', m', smallmap, treemap, z);
  }

  lemma SameCells(l: Layout, l': Layout, m: Memory, m': Memory, smallmap: bv32, treemap: bv32, z: Bins)
    requires BinsOk(l, m, smallmap, treemap, z) && LinksSame(l', m, m')
    requires forall c :: c in z.binned && c in l.chunks ==> c in l'.chunks && l'.chunks[c] == l.chunks[c]
    ensures BinCellsSame(l, z, m, m')
  {
    forall c | BinCell(l, z, c) ensures Get(m', c) == Get(m, c) {
      hide Get, LinksOk, TreeShape, MapsOk, LinksSame;
      BinCellLive(l, z, c);
      StillLive(l, l', z, c);
      hide *;
      LinkKept(l', m, m', c);
    }
  }

  lemma StillLive(l: Layout, l': Layout, z: Bins, c: Cell)
    requires BinCell(l, z, c) && Live(l, c)
    requires forall c :: c in z.binned && c in l.chunks ==> c in l'.chunks && l'.chunks[c] == l.chunks[c]
    ensures Live(l', c) && !IsTagCell(c)
  {}

  lemma LinkKept(l: Layout, m: Memory, m': Memory, c: Cell)
    requires LinksSame(l, m, m') && Live(l, c) && !IsTagCell(c)
    ensures Get(m', c) == Get(m, c)
  {
    hide Get, Live;
  }

  /** What a list of tag writes leaves of the tags. */
  lemma WritesKeepTags(l: Layout, m: Memory, m': Memory, w: map<Cell, nat>, heads: set<nat>, feet: set<nat>)
    requires Writes(l, m, m', w)
    requires forall x :: Head(x) in w ==> x in heads
    requires forall x :: Foot(x) in w ==> x in feet
    ensures TagsKept(l, m, m', heads, feet)
  {
    hide Get, Live, UserSame;
  }

  lemma WriteIs(l: Layout, m: Memory, m': Memory, w: map<Cell, nat>, c: Cell)
    requires Writes(l, m, m', w) && Live(l, c)
    ensures Get(m', c) == if c in w then w[c] else Get(m, c)
  {
    hide Get, Live, UserSame;
  }

  /** The caller's words of the remaining blocks are kept when blocks only disappear. */
  lemma UserShrinks(l: Layout, l': Layout, m: Memory, m': Memory)
    requires UserSame(l, m, m')
    requires forall y :: y in l'.chunks && l'.chunks[y].used ==> y in l.chunks && l.chunks[y] == l'.chunks[y]
    ensures UserSame(l', m, m')
  {
    forall a | UserWord(l', a) ensures Load(m', a) == Load(m, a) {
      var y :| UserWordOf(l', y, a);
      assert UserWordOf(l, y, a);
    }
  }

  lemma UserTwice(l: Layout, m: Memory, m1: Memory, m': Memory)
    requires UserSame(l, m, m1) && UserSame(l, m1, m')
    ensures UserSame(l, m, m')
  {
    hide Load, UserWord;
  }

  // ----- a stretch becomes one free chunk

  ghost function FreeWords(lo: nat, hi: nat): map<Cell, nat>
    requires lo < hi
  {
    map[Head(lo) := Tag(hi - lo, false, true), Foot(hi) := hi - lo]
  }

  lemma FreeLive(l: Layout, lo: nat, hi: nat)
    requires LayoutOk(l) && Stretch(l, lo, hi)
    ensures LayoutOk(One(l, lo, hi, false))
    ensures var l' := One(l, lo, hi, false); Live(l', Head(lo)) && Live(l', Head(hi)) && Live(l', Foot(hi))
  {
    OneOk(l, lo, hi, false);
    StretchEdges(l, lo, hi);
    FootAfterFree(One(l, lo, hi, false), lo);
    hide LayoutOk;
  }

  /** The row after [lo, hi) has been tagged as one free chunk; hi is in use and its pinuse bit is clear at the end. */
  lemma FreedRow(l: Layout, lo: nat, hi: nat, m: Memory, m': Memory, w: map<Cell, nat>)
    requires RowOk(l, m) && Stretch(l, lo, hi)
    requires hi in l.chunks && l.chunks[hi].used && Pinuse(Get(m, Head(lo)))
    requires Writes(One(l, lo, hi, false), m, m', w)
    requires w == FreeWords(lo, hi)[Head(hi) := WithoutPinuse(Get(m, Head(hi)))]
      || (w == FreeWords(lo, hi) && !Pinuse(Get(m, Head(hi))))
    ensures RowOk(One(l, lo, hi, false), m')
  {
    var l' := One(l, lo, hi, false);
    hide LayoutOk, TagsOk, Get, Tag, Pinuse, WithoutPinuse, NoAdjacentFree, One, Writes, NoFreeBefore, WithPinuse, Live;
    FreeLive(l, lo, hi);
    StretchEdges(l, lo, hi);
    WriteIs(l', m, m', w, Head(lo));
    WriteIs(l', m, m', w, Head(hi));
    WriteIs(l', m, m', w, Foot(hi));
    HeadUnchanged(l, m, hi);
    PinuseTells(l, m, lo);
    FreeWordCells(lo, hi, w, WithoutPinuse(Get(m, Head(hi))));
    hide Stretch, FreeWords;
    WritesKeepTags(l', m, m', w, {lo, hi}, {hi});
    OneTags(l, lo, hi, false, m, m');
    OneFreeApart(l, lo, hi);
  }

  lemma FreeWordCells(lo: nat, hi: nat, w: map<Cell, nat>, v: nat)
    requires lo < hi && (w == FreeWords(lo, hi)[Head(hi) := v] || w == FreeWords(lo, hi))
    ensures forall x :: Head(x) in w ==> x in {lo, hi}
    ensures forall x :: Foot(x) in w ==> x in {hi}
  {}

  /** A head word without the bit is its own image under clearing it. */
  lemma HeadUnchanged(l: Layout, m: Memory, x: nat)
    requires RowOk(l, m) && x in l.chunks
    ensures !Pinuse(Get(m, Head(x))) ==> WithoutPinuse(Get(m, Head(x))) == Get(m, Head(x))
    ensures Pinuse(Get(m, Head(x))) ==> WithPinuse(Get(m, Head(x))) == Get(m, Head(x))
  {
    hide Get;
  }

  // ----- which chunks a stretch holds

  /** The stretch [lo, hi) holds the used chunk p and at most one free chunk on either side. */
  ghost predicate Merging(l: Layout, lo: nat, p: nat, hi: nat) {
    && p in l.chunks && l.chunks[p].used && Stretch(l, lo, hi)
    && (lo == p || (FreeAt(l, lo) && lo + l.chunks[lo].size == p))
    && (var e := p + l.chunks[p].size; (hi == e && !FreeAt(l, e)) || (FreeAt(l, e) && e + l.chunks[e].size == hi))
  }

  ghost function EndOf(l: Layout, p: nat): nat
    requires p in l.chunks
  {
    p + l.chunks[p].size
  }

  lemma MergingHolds(l: Layout, lo: nat, p: nat, hi: nat, x: nat)
    requires LayoutOk(l) && Merging(l, lo, p, hi) && x in l.chunks && lo <= x < hi
    ensures x == lo || x == p || x == EndOf(l, p)
  {
    var e := EndOf(l, p);
    if x < p { NoRowInside(l, lo, x); }
    else if x < e { NoRowInside(l, p, x); }
    else { NoRowInside(l, e, x); }
  }

  lemma MergedSets(l: Layout, lo: nat, p: nat, hi: nat)
    requires LayoutOk(l) && Merging(l, lo, p, hi)
    ensures var l' := One(l, lo, hi, false);
      && Blocks(l') == Blocks(l) - {p}
      && (forall d :: Binnable(l', d) == Binnable(l, d) - {lo, EndOf(l, p)} + if d == lo then {} else {lo})
      && (forall y :: y in l'.chunks && l'.chunks[y].used ==> y in l.chunks && l.chunks[y] == l'.chunks[y])
      && (forall y :: FreeAt(l, y) && y != lo && y != EndOf(l, p) ==> y in l'.chunks && l'.chunks[y] == l.chunks[y])
  {
    var l', e := One(l, lo, hi, false), EndOf(l, p);
    forall x | x in l.chunks && lo <= x < hi ensures x == lo || x == p || x == e { MergingHolds(l, lo, p, hi, x); }
    OneKeeps(l, lo, hi, false);
    MergingEdges(l, lo, p, hi);
    hide LayoutOk, One, Stretch;
    BlocksMerged(l, l', lo, p, hi, e);
    forall d ensures Binnable(l', d) == Binnable(l, d) - {lo, e} + if d == lo then {} else {lo} {
      BinnableMerged(l, l', lo, p, hi, e, d);
    }
  }

  lemma MergingEdges(l: Layout, lo: nat, p: nat, hi: nat)
    requires LayoutOk(l) && Merging(l, lo, p, hi)
    ensures lo <= p < hi && EndOf(l, p) <= hi && p < EndOf(l, p)
    ensures EndOf(l, p) == hi ==> !FreeAt(l, hi)
    ensures lo < p ==> !l.chunks[lo].used
    ensures EndOf(l, p) < hi ==> FreeAt(l, EndOf(l, p))
  {
    assert EndOf(l, p) in l.chunks ==> ChunkOk(l, EndOf(l, p));
    assert ChunkOk(l, p);
  }

  lemma BlocksMerged(l: Layout, l': Layout, lo: nat, p: nat, hi: nat, e: nat)
    requires p in l.chunks && l.chunks[p].used && lo <= p < e <= hi
    requires lo < p ==> FreeAt(l, lo)
    requires e < hi ==> FreeAt(l, e)
    requires forall x :: x in l.chunks && lo <= x < hi ==> x == lo || x == p || x == e
    requires lo in l'.chunks && l'.chunks[lo] == Chunk(hi - lo, false)
    requires forall x ::
      x in l'.chunks && x != lo ==> x in l.chunks && (x < lo || hi <= x) && l'.chunks[x] == l.chunks[x]
    requires forall y :: y in l.chunks && (y < lo || hi <= y) ==> y in l'.chunks && l'.chunks[y] == l.chunks[y]
    ensures Blocks(l') == Blocks(l) - {p}
  {
    var b, b' := Blocks(l) - {p}, Blocks(l');
    forall x ensures x in b <==> x in b' {}
    assert b.Keys == b'.Keys;
  }

  lemma BinnableMerged(l: Layout, l': Layout, lo: nat, p: nat, hi: nat, e: nat, d: nat)
    requires p in l.chunks && l.chunks[p].used && lo <= p < e <= hi
    requires lo < p ==> FreeAt(l, lo)
    requires e == hi ==> e !in l.chunks || l.chunks[e].used
    requires forall x :: x in l.chunks && lo <= x < hi ==> x == lo || x == p || x == e
    requires lo in l'.chunks && l'.chunks[lo] == Chunk(hi - lo, false)
    requires forall x ::
      x in l'.chunks && x != lo ==> x in l.chunks && (x < lo || hi <= x) && l'.chunks[x] == l.chunks[x]
    requires forall y :: y in l.chunks && (y < lo || hi <= y) ==> y in l'.chunks && l'.chunks[y] == l.chunks[y]
    ensures Binnable(l', d) == Binnable(l, d) - {lo, e} + if d == lo then {} else {lo}
  {}

  /** Merging into top: the stretch from lo to top holds p, its last chunk, and at most a free chunk before it. */
  lemma TopMergedSets(l: Layout, lo: nat, p: nat)
    requires LayoutOk(l) && Merging(l, lo, p, l.top) && EndOf(l, p) == l.top
    ensures var l' := TopGive(l, lo);
      && Blocks(l') == Blocks(l) - {p}
      && (forall d :: d != lo ==> Binnable(l', d) == Binnable(l, d) - {lo})
      && (forall d :: lo !in Binnable(l, d) ==> Binnable(l', d) == Binnable(l, d))
      && (forall y :: y in l'.chunks && l'.chunks[y].used ==> y in l.chunks && l.chunks[y] == l'.chunks[y])
      && (forall y :: FreeAt(l, y) && y != lo ==> y in l'.chunks && l'.chunks[y] == l.chunks[y])
  {
    var l', t := TopGive(l, lo), l.top;
    forall x | x in l.chunks && lo <= x < t ensures x == lo || x == p { MergingHolds(l, lo, p, t, x); BelowTop(l, x); }
    forall x | x in l.chunks ensures x < t { BelowTop(l, x); }
    TopGiveKeeps(l, lo);
    MergingEdges(l, lo, p, t);
    hide LayoutOk, TopGive, Stretch, Merging;
    TopBlocks(l, l', lo, p);
  }

  lemma TopBlocks(l: Layout, l': Layout, lo: nat, p: nat)
    requires p in l.chunks && l.chunks[p].used && lo <= p && (lo < p ==> FreeAt(l, lo))
    requires forall x :: x in l.chunks && lo <= x ==> x == lo || x == p
    requires forall x :: x in l'.chunks ==> x in l.chunks && x < lo && l'.chunks[x] == l.chunks[x]
    requires forall x :: x in l.chunks && x < lo ==> x in l'.chunks
    ensures Blocks(l') == Blocks(l) - {p}
    ensures forall d :: d != lo ==> Binnable(l', d) == Binnable(l, d) - {lo}
    ensures forall d :: lo !in Binnable(l, d) ==> Binnable(l', d) == Binnable(l, d)
  {
    var b, b' := Blocks(l) - {p}, Blocks(l');
    forall x ensures x in b <==> x in b' {}
    assert b.Keys == b'.Keys;
    forall d | lo !in Binnable(l, d) ensures Binnable(l', d) == Binnable(l, d) {}
  }

  ghost function TopFreeWords(l: Layout, lo: nat): map<Cell, nat>
    requires lo <= l.end
  {
    map[Head(lo) := Tag(l.end - lo, false, true)]
  }

  lemma TopFreedRow(l: Layout, lo: nat, m: Memory, m': Memory)
    requires RowOk(l, m) && lo in l.chunks && lo <= l.end && Pinuse(Get(m, Head(lo)))
    requires Writes(TopGive(l, lo), m, m', TopFreeWords(l, lo))
    ensures RowOk(TopGive(l, lo), m')
  {
    var l', w := TopGive(l, lo), TopFreeWords(l, lo);
    TopGiveLive(l, lo);
    WriteIs(l', m, m', w, Head(lo));
    PinuseTells(l, m, lo);
    hide LayoutOk, TagsOk, Get, Tag, Pinuse, NoAdjacentFree, TopGive, Writes, NoFreeBefore;
    WritesKeepTags(l', m, m', w, {lo}, {});
    TopGiveTags(l, lo, m, m');
    TopGiveApart(l, lo);
  }

  lemma TopGiveLive(l: Layout, lo: nat)
    requires LayoutOk(l) && lo in l.chunks
    ensures LayoutOk(TopGive(l, lo)) && Live(TopGive(l, lo), Head(lo)) && lo <= l.end
  {
    TopGiveOk(l, lo);
    TopGiveKeeps(l, lo);
    TopEnd(l);
  }

  // ----- reading the neighbours through the tags

  /** The head word of a chunk, read. */
  lemma ReadChunk(l: Layout, m: Memory, x: nat)
    requires RowOk(l, m) && x in l.chunks
    ensures var h := Get(m, Head(x));
      && ChunkSize(h) == l.chunks[x].size && Cinuse(h) == l.chunks[x].used
      && Live(l, Head(x)) && l.chunks[x].size % 16 == 0 && l.chunks[x].size >= MIN_CHUNK && x > 0
      && InRow(l, EndOf(l, x)) && Live(l, Head(EndOf(l, x))) && EndOf(l, x) <= l.top && l.chunks[x].size < ARENA
      && x % 16 == 0
  {
    hide TagsOk, NoAdjacentFree, LayoutOk, Get, ChunkSize, Cinuse, IsTag;
    RowAt(l, m, x);
    TagReads(Get(m, Head(x)), l.chunks[x].size, l.chunks[x].used);
  }

  lemma RowAt(l: Layout, m: Memory, x: nat)
    requires RowOk(l, m) && x in l.chunks
    ensures ChunkOk(l, x) && HeadOk(l, m, x) && 16 <= l.base <= l.top < l.base + ARENA
  {
    hide HeadOk, NoAdjacentFree;
  }

  /** What follows a chunk: top, or a chunk whose head tells its use. */
  lemma ReadNext(l: Layout, m: Memory, x: nat)
    requires RowOk(l, m) && x in l.chunks
    ensures var e := EndOf(l, x); var h := Get(m, Head(e));
      && (e == l.top <==> e !in l.chunks)
      && (e == l.top ==> !Cinuse(h))
      && (e in l.chunks ==> Cinuse(h) == l.chunks[e].used)
      && Pinuse(h) == l.chunks[x].used
  {
    ReadChunk(l, m, x);
    assert AfterOk(l, m, x);
    var e := EndOf(l, x);
    if e in l.chunks {
      ReadChunk(l, m, e);
    } else {
      TopEnd(l);
      Aligned(l.end, l.top);
      TagReads(Get(m, Head(l.top)), l.end - l.top, false);
    }
    TopNotChunk(l);
    hide TagsOk, LayoutOk, NoAdjacentFree, Get, Pinuse, Cinuse;
  }

  /** The free chunk in front of x, found through its size repeated there. */
  lemma ReadPrev(l: Layout, m: Memory, x: nat)
    requires RowOk(l, m) && x in l.chunks && !Pinuse(Get(m, Head(x)))
    ensures Get(m, Foot(x)) <= x
    ensures var y := x - Get(m, Foot(x));
      && FreeAt(l, y) && l.chunks[y].size == Get(m, Foot(x)) && EndOf(l, y) == x && Pinuse(Get(m, Head(y))) && y < x
  {
    PinuseTells(l, m, x);
    var y := x - Get(m, Foot(x));
    FreePinuse(l, m, y);
    ReadChunk(l, m, y);
    hide TagsOk, LayoutOk, NoAdjacentFree, Get, Pinuse, Cinuse;
  }

  /** Sizes read through the tags, as the bins need them. */
  lemma SizesAreTagged(l: Layout, m: Memory, z: Bins)
    requires RowOk(l, m)
    ensures SizesTagged(l, m, z)
  {
    forall x | x in z.binned && x in l.chunks ensures ChunkSize(Get(m, Head(x))) == l.chunks[x].size {
      ReadChunk(l, m, x);
      hide *;
    }
  }

  /** Changes to link words leave the row as it is. */
  lemma RowKept(l: Layout, m: Memory, m': Memory)
    requires RowOk(l, m) && TagsSame(l, m, m')
    ensures RowOk(l, m')
  {
    forall x | x in l.chunks ensures HeadOk(l, m', x) && AfterOk(l, m', x) {
      ReadChunk(l, m, x);
      assert HeadOk(l, m, x) && AfterOk(l, m, x);
      if !l.chunks[x].used { FootAfterFree(l, x); }
      hide LayoutOk, IsTag, Get, TagsOk, Pinuse, Cinuse, ChunkSize, NoAdjacentFree;
    }
    EdgesKept(l, m, m');
    hide HeadOk, AfterOk, LayoutOk, IsTag, Pinuse, Get;
  }

  lemma EdgesKept(l: Layout, m: Memory, m': Memory)
    requires RowOk(l, m) && TagsSame(l, m, m')
    ensures Pinuse(Get(m', Head(l.base))) && l.top <= l.end && IsTag(Get(m', Head(l.top)), l.end - l.top, false)
    ensures Get(m', Head(l.end)) == TOP_FOOT
  {
    BaseRow(l);
    assert Live(l, Head(l.base)) && Live(l, Head(l.top)) && Live(l, Head(l.end));
    hide HeadOk, AfterOk, LayoutOk, IsTag, Pinuse, Get, NoAdjacentFree, Live;
  }

  /** Every chunk size has a ring key: small ones are multiples of eight below 256. */
  lemma SmallKey(l: Layout, m: Memory, smallmap: bv32, treemap: bv32, z: Bins, s: nat)
    requires BinsOk(l, m, smallmap, treemap, z) && IsSmall(s) && s % 16 == 0
    ensures s in z.rings
  {
    hide LinksOk, TreeShape, WordsOk, ChainsOk, MapsOk;
    assert s == 8 * (s / 8);
  }

  // ----- freeing: the stretch to merge, and the state after

  lemma InBinnable(l: Layout, dv: nat, p: nat)
    requires FreeAt(l, p) && p != dv
    ensures p in Binnable(l, dv)
  {}

  /** p is in use, and lo is p itself or a free chunk right before it. */
  ghost predicate Backed(l: Layout, lo: nat, p: nat) {
    p in l.chunks && l.chunks[p].used && (lo == p || (FreeAt(l, lo) && EndOf(l, lo) == p))
  }

  lemma BackedBounds(l: Layout, lo: nat, p: nat)
    requires LayoutOk(l) && Backed(l, lo, p)
    ensures 0 < lo <= p < EndOf(l, p) <= l.top && lo in l.chunks && InRow(l, EndOf(l, p)) && lo % 16 == 0
  {
    assert ChunkOk(l, p) && ChunkOk(l, lo);
  }

  lemma MergeUsed(l: Layout, lo: nat, p: nat)
    requires LayoutOk(l) && Backed(l, lo, p) && !FreeAt(l, EndOf(l, p))
    ensures Merging(l, lo, p, EndOf(l, p))
  {
    BackedBounds(l, lo, p);
    hide LayoutOk;
  }

  lemma MergeFree(l: Layout, lo: nat, p: nat)
    requires LayoutOk(l) && NoAdjacentFree(l) && Backed(l, lo, p) && FreeAt(l, EndOf(l, p))
    ensures var hi := EndOf(l, EndOf(l, p)); Merging(l, lo, p, hi) && hi in l.chunks && l.chunks[hi].used
  {
    BackedBounds(l, lo, p);
    assert Fenced(l, EndOf(l, p));
    BackedBounds(l, EndOf(l, EndOf(l, p)), EndOf(l, EndOf(l, p)));
    assert ChunkOk(l, EndOf(l, p));
    hide LayoutOk;
  }

  /** The bins survive the merge once the merged chunks have left them. */
  lemma FreedBins(l: Layout, lo: nat, p: nat, hi: nat, m: Memory, m': Memory, w: map<Cell, nat>, smallmap: bv32,
                  treemap: bv32, z: Bins)
    requires LayoutOk(l) && BinsOk(l, m, smallmap, treemap, z) && Merging(l, lo, p, hi)
    requires lo !in z.binned && EndOf(l, p) !in z.binned
    requires Writes(One(l, lo, hi, false), m, m', w) && forall c :: c in w ==> IsTagCell(c)
    ensures BinsOk(One(l, lo, hi, false), m', smallmap, treemap, z)
    ensures UserSame(One(l, lo, hi, false), m, m')
  {
    hide LayoutOk, BinsOk, One, Blocks, Binnable, UserSame, Get, Live, Writes;
    MergedSets(l, lo, p, hi);
    BinnedFree(l, m, smallmap, treemap, z);
    OnlyTagWrites(One(l, lo, hi, false), m, m', w);
    BinsAcross(l, One(l, lo, hi, false), m, m', w, smallmap, treemap, z);
  }

  lemma BinnedFree(l: Layout, m: Memory, smallmap: bv32, treemap: bv32, z: Bins)
    requires BinsOk(l, m, smallmap, treemap, z)
    ensures forall c :: c in z.binned ==> FreeAt(l, c)
  {
    hide LinksOk, TreeShape, WordsOk, ChainsOk, MapsOk;
    forall c | c in z.binned ensures FreeAt(l, c) { assert MemberOk(l, z, c); }
  }

  /** The victim and the set of binned chunks after a merge. */
  lemma AfterMerge(l: Layout, lo: nat, p: nat, hi: nat, dv: nat, dvsize: nat, binned: set<nat>)
    requires LayoutOk(l) && Merging(l, lo, p, hi) && DvOk(l, dv, dvsize)
    requires binned == Binnable(l, dv) - {lo, EndOf(l, p)}
    ensures lo > 0 && lo < hi
    ensures var l' := One(l, lo, hi, false);
      && Blocks(l') == Blocks(l) - {p} && l'.base == l.base && l'.top == l.top && l'.end == l.end
      && FreeAt(l', lo) && l'.chunks[lo].size == hi - lo
      && (if dv == lo || dv == EndOf(l, p) then DvOk(l', lo, hi - lo) && binned == Binnable(l', lo)
          else DvOk(l', dv, dvsize) && binned + {lo} == Binnable(l', dv) && lo !in binned)
      && (forall y :: y in l'.chunks && l'.chunks[y].used ==> y in l.chunks && l.chunks[y] == l'.chunks[y])
  {
    MergedSets(l, lo, p, hi);
    OneKeeps(l, lo, hi, false);
    BackedBounds(l, lo, p);
    hide LayoutOk, One, Blocks;
    assert dv != 0 ==> FreeAt(l, dv);
  }

  lemma UserAcross(l: Layout, l': Layout, m0: Memory, m1: Memory, m2: Memory)
    requires UserSame(l, m0, m1) && UserSame(l', m1, m2)
    requires forall y :: y in l'.chunks && l'.chunks[y].used ==> y in l.chunks && l.chunks[y] == l'.chunks[y]
    ensures UserSame(l', m0, m2)
  {
    hide UserSame;
    UserShrinks(l, l', m0, m1);
    UserTwice(l', m0, m1, m2);
  }

  lemma UserStays(l: Layout, m: Memory)
    ensures UserSame(l, m, m)
  {}

  /** Freeing into top: the whole state after. */
  lemma AfterTopMerge(l: Layout, lo: nat, p: nat, dv: nat, dvsize: nat, binned: set<nat>)
    requires LayoutOk(l) && Backed(l, lo, p) && EndOf(l, p) == l.top && DvOk(l, dv, dvsize)
    requires binned == Binnable(l, dv) - {lo}
    ensures lo in l.chunks
    ensures var l' := TopGive(l, lo); var dv' := if lo == dv then 0 else dv;
      && Blocks(l') == Blocks(l) - {p} && l'.base == l.base && l'.top == lo && l'.end == l.end
      && DvOk(l', dv', if lo == dv then 0 else dvsize) && binned == Binnable(l', dv')
      && (forall y :: y in l'.chunks && l'.chunks[y].used ==> y in l.chunks && l.chunks[y] == l'.chunks[y])
      && (forall y :: FreeAt(l, y) && y != lo ==> y in l'.chunks && l'.chunks[y] == l.chunks[y])
  {
    TopNotChunk(l);
    BackedBounds(l, lo, p);
    MergeUsed(l, lo, p);
    TopMergedSets(l, lo, p);
    TopGiveKeeps(l, lo);
    ZeroNoChunk(l);
    hide LayoutOk, TopGive, Blocks;
    assert dv != 0 ==> FreeAt(l, dv);
    assert Binnable(l, 0) - {lo} == Binnable(l, lo);
  }

  lemma ZeroNoChunk(l: Layout)
    requires LayoutOk(l)
    ensures 0 !in l.chunks
  {
    assert 0 in l.chunks ==> ChunkOk(l, 0);
  }

  lemma TopFreedBins(l: Layout, lo: nat, p: nat, m: Memory, m': Memory, w: map<Cell, nat>, smallmap: bv32,
                     treemap: bv32, z: Bins)
    requires LayoutOk(l) && BinsOk(l, m, smallmap, treemap, z) && Backed(l, lo, p) && EndOf(l, p) == l.top
    requires lo !in z.binned
    requires Writes(TopGive(l, lo), m, m', w) && forall c :: c in w ==> IsTagCell(c)
    ensures BinsOk(TopGive(l, lo), m', smallmap, treemap, z)
    ensures UserSame(TopGive(l, lo), m, m')
  {
    TopNotChunk(l);
    BackedBounds(l, lo, p);
    MergeUsed(l, lo, p);
    hide LayoutOk, BinsOk, Merging, TopGive, Blocks, Binnable, UserSame, Get, Live, Writes;
    TopMergedSets(l, lo, p);
    BinnedFree(l, m, smallmap, treemap, z);
    OnlyTagWrites(TopGive(l, lo), m, m', w);
    BinsAcross(l, TopGive(l, lo), m, m', w, smallmap, treemap, z);
  }

  lemma NotBinnable(l: Layout, dv: nat, p: nat)
    ensures !FreeAt(l, p) || p == dv ==> p !in Binnable(l, dv)
  {}

  lemma WritesNone(l: Layout, m: Memory)
    ensures Writes(l, m, m, map[])
  {}

  lemma BlocksFewer(l: Layout, l': Layout, p: nat)
    requires Blocks(l') == Blocks(l) - {p}
    ensures forall y :: y in l'.chunks && l'.chunks[y].used ==> y in l.chunks && l.chunks[y] == l'.chunks[y]
  {
    forall y | y in l'.chunks && l'.chunks[y].used ensures y in l.chunks && l.chunks[y] == l'.chunks[y] {
      assert y in Blocks(l') && Blocks(l')[y] == l'.chunks[y].size;
      assert y in Blocks(l);
    }
  }

  lemma HeadsSame(l: Layout, m: Memory, m': Memory, x: nat)
    requires TagsSame(l, m, m') && InRow(l, x)
    ensures Get(m', Head(x)) == Get(m, Head(x))
  {
    hide Get;
    assert Live(l, Head(x));
  }
}
