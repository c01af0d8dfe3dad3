/**
 * Taking memory: a stretch of the row becomes a used chunk, alone or in front of a second one, or a used
 * chunk is cut from top. What this does to the tags, the blocks in use, the bins and the victim.
 */
module HeapTake {
  import opened BinIndex
  import opened BinMaps
  import opened HeapLayout
  import opened HeapTrie
  import opened HeapBins
  import opened HeapEdits
  import opened HeapOps
  import opened HeapSearch
  import opened HeapState
  import opened Words

  ghost function Inside(l: Layout, lo: nat, hi: nat): set<nat> {
    set x | x in l.chunks && lo <= x < hi
  }

  /** Nothing in the stretch but its first chunk is in use. */
  ghost predicate Spare(l: Layout, lo: nat, hi: nat) {
    Stretch(l, lo, hi) && forall x :: x in l.chunks && lo < x < hi ==> !l.chunks[x].used
  }

  lemma InsideOne(l: Layout, lo: nat)
    requires LayoutOk(l) && lo in l.chunks
    ensures Inside(l, lo, EndOf(l, lo)) == {lo} && Spare(l, lo, EndOf(l, lo))
  {
    assert ChunkOk(l, lo);
    forall x | x in l.chunks && lo <= x < EndOf(l, lo) ensures x == lo { NoRowInside(l, lo, x); }
    hide LayoutOk;
  }

  lemma InsideTwo(l: Layout, lo: nat)
    requires LayoutOk(l) && lo in l.chunks && FreeAt(l, EndOf(l, lo))
    ensures var e := EndOf(l, lo); Inside(l, lo, EndOf(l, e)) == {lo, e} && Spare(l, lo, EndOf(l, e))
  {
    var e := EndOf(l, lo);
    InsideOne(l, lo);
    InsideOne(l, e);
    assert ChunkOk(l, lo) && ChunkOk(l, e);
    assert Inside(l, lo, EndOf(l, e)) == Inside(l, lo, e) + Inside(l, e, EndOf(l, e));
    forall x | x in l.chunks && lo < x < EndOf(l, e) ensures x == e {
      assert x in Inside(l, lo, EndOf(l, e));
    }
    hide LayoutOk;
  }

  // ----- one used chunk

  ghost function UsedWords(m: Memory, lo: nat, hi: nat): map<Cell, nat>
    requires lo < hi
  {
    map[Head(lo) := Tag(hi - lo, true, Pinuse(Get(m, Head(lo)))), Head(hi) := WithPinuse(Get(m, Head(hi)))]
  }

  lemma UsedLive(l: Layout, lo: nat, hi: nat)
    requires LayoutOk(l) && Stretch(l, lo, hi)
    ensures LayoutOk(One(l, lo, hi, true))
    ensures Live(One(l, lo, hi, true), Head(lo)) && Live(One(l, lo, hi, true), Head(hi))
  {
    OneOk(l, lo, hi, true);
  }

  lemma UsedRow(l: Layout, lo: nat, hi: nat, m: Memory, m': Memory)
    requires RowOk(l, m) && Stretch(l, lo, hi)
    requires Writes(One(l, lo, hi, true), m, m', UsedWords(m, lo, hi))
    ensures RowOk(One(l, lo, hi, true), m')
  {
    var l', w := One(l, lo, hi, true), UsedWords(m, lo, hi);
    UsedLive(l, lo, hi);
    WriteIs(l', m, m', w, Head(lo));
    WriteIs(l', m, m', w, Head(hi));
    hide LayoutOk, TagsOk, Get, Tag, Pinuse, NoAdjacentFree, One, Writes, Stretch, WithPinuse;
    WritesKeepTags(l', m, m', w, {lo, hi}, {hi});
    OneTags(l, lo, hi, true, m, m');
    OneUsedApart(l, lo, hi);
  }

  lemma UsedSets(l: Layout, lo: nat, hi: nat)
    requires LayoutOk(l) && Spare(l, lo, hi)
    ensures var l' := One(l, lo, hi, true);
      && l'.base == l.base && l'.top == l.top && l'.end == l.end
      && lo in l'.chunks && l'.chunks[lo] == Chunk(hi - lo, true)
      && Blocks(l') == Blocks(l)[lo := hi - lo]
      && (forall d {:trigger Binnable(l', d)} :: Binnable(l', d) == Binnable(l, d) - Inside(l, lo, hi))
      && (forall y :: y in l.chunks && y !in Inside(l, lo, hi) ==> y in l'.chunks && l'.chunks[y] == l.chunks[y])
  {
    var l' := One(l, lo, hi, true);
    OneKeeps(l, lo, hi, true);
    hide LayoutOk, One;
    var b, b' := Blocks(l)[lo := hi - lo], Blocks(l');
    forall x ensures x in b <==> x in b' {}
    assert b.Keys == b'.Keys;
  }

  // ----- a used chunk and a second one

  ghost function SplitWords(m: Memory, lo: nat, mid: nat, hi: nat, used: bool): map<Cell, nat>
    requires lo < mid < hi
  {
    var w := map[Head(lo) := Tag(mid - lo, true, Pinuse(Get(m, Head(lo)))), Head(mid) := Tag(hi - mid, used, true)];
    if used then w[Head(hi) := WithPinuse(Get(m, Head(hi)))] else w[Foot(hi) := hi - mid]
  }

  lemma SplitLive(l: Layout, lo: nat, mid: nat, hi: nat, used: bool)
    requires LayoutOk(l) && Stretch(l, lo, hi)
    requires lo + MIN_CHUNK <= mid && mid + MIN_CHUNK <= hi && mid % 16 == 0
    ensures var l' := Two(l, lo, mid, hi, true, used);
      LayoutOk(l') && Live(l', Head(lo)) && Live(l', Head(mid)) && Live(l', Head(hi)) && (!used ==> Live(l', Foot(hi)))
  {
    TwoOk(l, lo, mid, hi, true, used);
    TwoKeeps(l, lo, mid, hi, true, used);
    if !used { FootAfterFree(Two(l, lo, mid, hi, true, used), mid); }
    hide LayoutOk;
  }

  lemma SplitRow(l: Layout, lo: nat, mid: nat, hi: nat, used: bool, m: Memory, m': Memory, w: map<Cell, nat>)
    requires RowOk(l, m) && Stretch(l, lo, hi)
    requires lo + MIN_CHUNK <= mid && mid + MIN_CHUNK <= hi && mid % 16 == 0
    requires !used ==> hi in l.chunks && l.chunks[hi].used
    requires Writes(Two(l, lo, mid, hi, true, used), m, m', w)
    requires w == SplitWords(m, lo, mid, hi, used)
      || (!used && w == SplitWords(m, lo, mid, hi, used)[Head(hi) := WithoutPinuse(Get(m, Head(hi)))])
    requires !used && Head(hi) !in w ==> !Pinuse(Get(m, Head(hi)))
    ensures RowOk(Two(l, lo, mid, hi, true, used), m')
  {
    var l' := Two(l, lo, mid, hi, true, used);
    SplitLive(l, lo, mid, hi, used);
    SplitReads(l, lo, mid, hi, used, m, m', w);
    hide LayoutOk, TagsOk, Get, Tag, Pinuse, NoAdjacentFree, Two, Writes, Stretch, WithPinuse, WithoutPinuse;
    WritesKeepTags(l', m, m', w, {lo, mid, hi}, {hi});
    TwoTags(l, lo, mid, hi, used, m, m');
    TwoApart(l, lo, mid, hi, used);
  }

  lemma SplitReads(l: Layout, lo: nat, mid: nat, hi: nat, used: bool, m: Memory, m': Memory, w: map<Cell, nat>)
    requires RowOk(l, m) && lo < mid < hi
    requires !used ==> hi in l.chunks && l.chunks[hi].used
    requires var l' := Two(l, lo, mid, hi, true, used);
      Live(l', Head(lo)) && Live(l', Head(mid)) && Live(l', Head(hi)) && (!used ==> Live(l', Foot(hi)))
    requires Writes(Two(l, lo, mid, hi, true, used), m, m', w)
    requires w == SplitWords(m, lo, mid, hi, used)
      || (!used && w == SplitWords(m, lo, mid, hi, used)[Head(hi) := WithoutPinuse(Get(m, Head(hi)))])
    requires !used && Head(hi) !in w ==> !Pinuse(Get(m, Head(hi)))
    ensures Get(m', Head(lo)) == Tag(mid - lo, true, Pinuse(Get(m, Head(lo))))
    ensures Get(m', Head(mid)) == Tag(hi - mid, used, true)
    ensures SameTag(Get(m, Head(hi)), Get(m', Head(hi)), used)
    ensures !used ==> Get(m', Foot(hi)) == hi - mid
    ensures forall x :: Head(x) in w ==> x in {lo, mid, hi}
    ensures forall x :: Foot(x) in w ==> x in {hi}
  {
    var l' := Two(l, lo, mid, hi, true, used);
    hide RowOk, Get, Tag, Pinuse, Two, Writes, WithPinuse, WithoutPinuse, Live;
    if !used { HeadUnchanged(l, m, hi); }
    SplitCells(m, lo, mid, hi, used, w);
    hide SplitWords;
    WriteIs(l', m, m', w, Head(lo));
    WriteIs(l', m, m', w, Head(mid));
    WriteIs(l', m, m', w, Head(hi));
    if !used { WriteIs(l', m, m', w, Foot(hi)); }
  }

  /** The words of a split, as they come about when the rest stays free. */
  lemma SplitComesAbout(m: Memory, lo: nat, mid: nat, hi: nat, v: nat)
    requires lo < mid < hi
    ensures map[Head(lo) := Tag(mid - lo, true, Pinuse(Get(m, Head(lo))))][Head(mid) := v][Head(mid) :=
      Tag(hi - mid, false, true)][Foot(hi) := hi - mid]
      == SplitWords(m, lo, mid, hi, false)
  {
    hide Get, Tag, Pinuse;
  }

  /** Which words a split writes, and what. */
  lemma SplitCells(m: Memory, lo: nat, mid: nat, hi: nat, used: bool, w: map<Cell, nat>)
    requires lo < mid < hi
    requires w == SplitWords(m, lo, mid, hi, used)
      || (!used && w == SplitWords(m, lo, mid, hi, used)[Head(hi) := WithoutPinuse(Get(m, Head(hi)))])
    ensures Head(lo) in w && w[Head(lo)] == Tag(mid - lo, true, Pinuse(Get(m, Head(lo))))
    ensures Head(mid) in w && w[Head(mid)] == Tag(hi - mid, used, true)
    ensures used ==> Head(hi) in w && w[Head(hi)] == WithPinuse(Get(m, Head(hi)))
    ensures !used ==>
      && Foot(hi) in w && w[Foot(hi)] == hi - mid && (Head(hi) in w ==> w[Head(hi)] == WithoutPinuse(Get(m, Head(hi))))
    ensures forall x :: Head(x) in w ==> x in {lo, mid, hi}
    ensures forall x :: Foot(x) in w ==> x in {hi}
  {
    hide Get, Tag, Pinuse, WithPinuse, WithoutPinuse;
  }

  lemma SplitSets(l: Layout, lo: nat, mid: nat, hi: nat, used: bool)
    requires LayoutOk(l) && Spare(l, lo, hi) && lo < mid < hi
    ensures var l' := Two(l, lo, mid, hi, true, used);
      && l'.base == l.base && l'.top == l.top && l'.end == l.end
      && lo in l'.chunks && l'.chunks[lo] == Chunk(mid - lo, true)
      && mid in l'.chunks && l'.chunks[mid] == Chunk(hi - mid, used)
      && Blocks(l') == (if used then Blocks(l)[lo := mid - lo][mid := hi - mid] else Blocks(l)[lo := mid - lo])
      && (forall d {:trigger Binnable(l', d)} ::
          Binnable(l', d) == Binnable(l, d) - Inside(l, lo, hi) + if used || d == mid then {} else {mid})
      && (forall y :: y in l.chunks && y !in Inside(l, lo, hi) ==> y in l'.chunks && l'.chunks[y] == l.chunks[y])
  {
    var l' := Two(l, lo, mid, hi, true, used);
    TwoKeeps(l, lo, mid, hi, true, used);
    hide LayoutOk, Two;
    var b, b' := if used then Blocks(l)[lo := mid - lo][mid := hi - mid] else Blocks(l)[lo := mid - lo], Blocks(l');
    forall x ensures x in b <==> x in b' {}
    assert b.Keys == b'.Keys;
    forall d ensures Binnable(l', d) == Binnable(l, d) - Inside(l, lo, hi) + if used || d == mid then {} else {mid} {}
  }

  // ----- from top

  ghost function TopWords(l: Layout, n: nat): map<Cell, nat>
    requires l.top + n < l.end
  {
    map[Head(l.top + n) := Tag(l.end - (l.top + n), false, true), Head(l.top) := Tag(n, true, true)]
  }

  lemma TopTakeLive(l: Layout, n: nat)
    requires LayoutOk(l) && n % 16 == 0 && MIN_CHUNK <= n && l.top + n < l.end
    ensures LayoutOk(TopTake(l, n)) && Live(TopTake(l, n), Head(l.top)) && Live(TopTake(l, n), Head(l.top + n))
  {
    TopTakeOk(l, n);
  }

  lemma TopWordCells(l: Layout, n: nat)
    requires l.top + n < l.end && n > 0
    ensures forall x :: Head(x) in TopWords(l, n) ==> x in {l.top, l.top + n}
    ensures forall x :: Foot(x) !in TopWords(l, n)
    ensures Head(l.top) in TopWords(l, n) && TopWords(l, n)[Head(l.top)] == Tag(n, true, true)
    ensures Head(l.top + n) in TopWords(l, n)
    ensures TopWords(l, n)[Head(l.top + n)] == Tag(l.end - (l.top + n), false, true)
  {}

  lemma TopTakeRow(l: Layout, n: nat, m: Memory, m': Memory)
    requires RowOk(l, m) && n % 16 == 0 && MIN_CHUNK <= n && l.top + n < l.end
    requires Writes(TopTake(l, n), m, m', TopWords(l, n))
    ensures RowOk(TopTake(l, n), m')
  {
    var l', w := TopTake(l, n), TopWords(l, n);
    hide LayoutOk, TagsOk, Get, Tag, Pinuse, NoAdjacentFree, TopTake, Writes, Live;
    TopTakeLive(l, n);
    TopPinuse(l, m);
    TopWordCells(l, n);
    hide TopWords;
    WriteIs(l', m, m', w, Head(l.top));
    WriteIs(l', m, m', w, Head(l.top + n));
    WritesKeepTags(l', m, m', w, {l.top, l.top + n}, {});
    TopTakeTags(l, n, m, m');
    TopTakeApart(l, n);
  }

  lemma TopTakeSets(l: Layout, n: nat)
    requires LayoutOk(l) && n > 0
    ensures var l' := TopTake(l, n);
      && l.top !in l.chunks
      && Blocks(l') == Blocks(l)[l.top := n]
      && (forall d {:trigger Binnable(l', d)} :: Binnable(l', d) == Binnable(l, d))
      && (forall y :: y in l.chunks ==> y in l'.chunks && l'.chunks[y] == l.chunks[y])
  {
    TopNotChunk(l);
    hide LayoutOk;
    var b, b' := Blocks(l)[l.top := n], Blocks(TopTake(l, n));
    assert b.Keys == b'.Keys;
  }

  // ----- bins and the caller's words

  /** All free chunks of l outside gone are in l', unchanged. */
  ghost predicate KeepsFree(l: Layout, l': Layout, gone: set<nat>) {
    forall y :: FreeAt(l, y) && y !in gone ==> y in l'.chunks && l'.chunks[y] == l.chunks[y]
  }

  /** All used chunks of l are in l', unchanged. */
  ghost predicate KeepsUsed(l: Layout, l': Layout) {
    forall y :: y in l.chunks && l.chunks[y].used ==> y in l'.chunks && l'.chunks[y] == l.chunks[y]
  }

  /** An edit with tag writes only, away from the binned chunks, keeps the bins and the caller's words. */
  lemma EditBins(l: Layout, l': Layout, gone: set<nat>, m: Memory, m': Memory, w: map<Cell, nat>, smallmap: bv32,
                 treemap: bv32, z: Bins)
    requires BinsOk(l, m, smallmap, treemap, z) && KeepsFree(l, l', gone) && z.binned !! gone
    requires Writes(l', m, m', w) && forall c :: c in w ==> IsTagCell(c)
    ensures BinsOk(l', m', smallmap, treemap, z) && UserSame(l', m, m')
    ensures KeepsUsed(l, l') ==> UserSame(l, m, m')
  {
    hide BinsOk, Writes, UserSame;
    BinnedFree(l, m, smallmap, treemap, z);
    OnlyTagWrites(l', m, m', w);
    BinsAcross(l, l', m, m', w, smallmap, treemap, z);
    if KeepsUsed(l, l') { UserShrinks(l', l, m, m'); }
  }

  // ----- the victim

  /** Taking the whole free chunk p. */
  lemma AfterOccupy(l: Layout, p: nat, dv: nat, dvsize: nat, binned: set<nat>)
    requires LayoutOk(l) && FreeAt(l, p) && DvOk(l, dv, dvsize) && binned == Binnable(l, dv) - {p}
    ensures p < EndOf(l, p)
    ensures var s := l.chunks[p].size; var l' := One(l, p, EndOf(l, p), true);
      && Blocks(l') == Blocks(l)[p := s] && p !in Blocks(l)
      && l'.base == l.base && l'.top == l.top && l'.end == l.end
      && (if p == dv then DvOk(l', 0, 0) && binned == Binnable(l', 0)
          else DvOk(l', dv, dvsize) && binned == Binnable(l', dv))
      && KeepsUsed(l, l') && KeepsFree(l, l', {p})
  {
    assert ChunkOk(l, p);
    InsideOne(l, p);
    UsedSets(l, p, EndOf(l, p));
    ZeroNoChunk(l);
    hide LayoutOk, One, Inside, Stretch;
  }

  /** Taking nb bytes from the free chunk p and leaving a free remainder r. */
  lemma AfterCarve(l: Layout, p: nat, nb: nat, dv: nat, dvsize: nat, binned: set<nat>)
    requires LayoutOk(l) && FreeAt(l, p) && DvOk(l, dv, dvsize) && binned == Binnable(l, dv) - {p}
    requires 0 < nb < l.chunks[p].size
    ensures var s, r := l.chunks[p].size, p + nb; var l' := Two(l, p, r, EndOf(l, p), true, false);
      && Blocks(l') == Blocks(l)[p := nb] && p !in Blocks(l)
      && l'.base == l.base && l'.top == l.top && l'.end == l.end
      && FreeAt(l', r) && l'.chunks[r].size == s - nb && r > 0
      && Victims(l', p, r, s - nb, dv, dvsize, binned)
      && KeepsUsed(l, l') && KeepsFree(l, l', {p})
  {
    var s, r := l.chunks[p].size, p + nb;
    var l' := Two(l, p, r, EndOf(l, p), true, false);
    SplitOne(l, p, r);
    CarveFresh(l, p, r);
    ZeroNoChunk(l);
    hide LayoutOk, Two, Binnable, Victims, KeepsFree, KeepsUsed, DvOk, Blocks;
    CarveBlocks(l, l', p);
    CarveVictims(l, l', p, r, s - nb, dv, dvsize, binned);
  }

  lemma SplitOne(l: Layout, p: nat, r: nat)
    requires LayoutOk(l) && p in l.chunks && p < r < EndOf(l, p)
    ensures var l' := Two(l, p, r, EndOf(l, p), true, false);
      && l'.base == l.base && l'.top == l.top && l'.end == l.end
      && r in l'.chunks && l'.chunks[r] == Chunk(EndOf(l, p) - r, false)
      && Blocks(l') == Blocks(l)[p := r - p]
      && (forall d {:trigger Binnable(l', d)} :: Binnable(l', d) == Binnable(l, d) - {p} + if d == r then {} else {r})
      && (forall y :: y in l.chunks && y !in {p} ==> y in l'.chunks && l'.chunks[y] == l.chunks[y])
  {
    InsideOne(l, p);
    SplitSets(l, p, r, EndOf(l, p), false);
    hide LayoutOk, Two, Inside, Stretch, Spare, Binnable, Blocks;
  }

  /** What the remainder r of p may become: the new victim, with or without the old one binned, or a binned chunk. */
  ghost predicate Victims(l': Layout, p: nat, r: nat, rs: nat, dv: nat, dvsize: nat, binned: set<nat>) {
    && r !in binned && DvOk(l', r, rs)
    && (p == dv ==> binned == Binnable(l', r))
    && (p != dv ==> DvOk(l', dv, dvsize) && binned + {r} == Binnable(l', dv))
    && (p != dv ==> Binnable(l', r) == if dv == 0 then binned else binned + {dv})
    && (p != dv && dv != 0 ==> dv !in binned && FreeAt(l', dv) && l'.chunks[dv].size == dvsize)
  }

  lemma CarveBlocks(l: Layout, l': Layout, p: nat)
    requires FreeAt(l, p)
    requires forall y :: y in l.chunks && y !in {p} ==> y in l'.chunks && l'.chunks[y] == l.chunks[y]
    ensures p !in Blocks(l) && KeepsUsed(l, l') && KeepsFree(l, l', {p})
  {}

  lemma CarveVictims(l: Layout, l': Layout, p: nat, r: nat, rs: nat, dv: nat, dvsize: nat, binned: set<nat>)
    requires FreeAt(l, p) && DvOk(l, dv, dvsize) && binned == Binnable(l, dv) - {p} && 0 !in l.chunks && r !in l.chunks
    requires r > 0 && rs > 0
    requires r in l'.chunks && l'.chunks[r] == Chunk(rs, false)
    requires forall d {:trigger Binnable(l', d)} :: Binnable(l', d) == Binnable(l, d) - {p} + if d == r then {} else {r}
    requires forall y :: y in l.chunks && y !in {p} ==> y in l'.chunks && l'.chunks[y] == l.chunks[y]
    ensures Victims(l', p, r, rs, dv, dvsize, binned)
  {
    assert Binnable(l', r) == Binnable(l, r) - {p};
    if p != dv { assert Binnable(l', dv) == Binnable(l, dv) - {p} + if dv == r then {} else {r}; }
  }

  lemma CarveFresh(l: Layout, p: nat, r: nat)
    requires LayoutOk(l) && p in l.chunks && p < r < EndOf(l, p)
    ensures r !in l.chunks
  {
    if r in l.chunks { NoRowInside(l, p, r); }
  }

  /** Taking from top. */
  lemma AfterTopTake(l: Layout, n: nat, dv: nat, dvsize: nat)
    requires LayoutOk(l) && DvOk(l, dv, dvsize) && n > 0
    ensures var l' := TopTake(l, n);
      && Blocks(l') == Blocks(l)[l.top := n] && l.top !in Blocks(l)
      && l'.base == l.base && l'.top == l.top + n && l'.end == l.end
      && DvOk(l', dv, dvsize) && Binnable(l', dv) == Binnable(l, dv)
      && KeepsUsed(l, l') && KeepsFree(l, l', {})
  {
    TopTakeSets(l, n);
    hide LayoutOk;
  }

  // ----- what an allocation promises

  /** A new block at p of at least nb bytes and less than a minimal chunk more; no other block changed. */
  ghost predicate Allocated(l: Layout, l': Layout, p: nat, nb: nat) {
    && p !in Blocks(l) && p in Blocks(l') && Blocks(l') == Blocks(l)[p := Blocks(l')[p]]
    && nb <= Blocks(l')[p] < nb + MIN_CHUNK
  }

  ghost predicate Fits(l: Layout, x: nat, nb: nat) {
    FreeAt(l, x) && nb <= l.chunks[x].size
  }

  /** No free chunk holds nb bytes. */
  ghost predicate NoFit(l: Layout, nb: nat) {
    forall x :: FreeAt(l, x) ==> l.chunks[x].size < nb
  }

  /** p is no larger than any fitting free chunk but d. */
  ghost predicate LeastBut(l: Layout, d: nat, nb: nat, p: nat)
    requires FreeAt(l, p)
  {
    forall x :: Fits(l, x, nb) && x != d ==> l.chunks[p].size <= l.chunks[x].size
  }

  /**
   * Which place a request takes. Top is used only if no free chunk fits. Large requests take a best fit of
   * all free chunks. Small requests take a binned chunk of the exact size, if there is one; else the victim, if it
   * fits; else a best fit of the binned chunks.
   */
  ghost predicate Policy(l: Layout, dv: nat, nb: nat, small: bool, p: nat) {
    if NoFit(l, nb) then p == l.top
    else
      && Fits(l, p, nb)
      && (p != dv ==> LeastBut(l, dv, nb, p))
      && (!small ==> LeastBut(l, 0, nb, p))
      && (small && p == dv ==> NoneExact(l, dv, nb))
      && (small && p != dv && Fits(l, dv, nb) ==> l.chunks[p].size == nb)
  }

  ghost predicate NoneExact(l: Layout, dv: nat, nb: nat) {
    forall x :: FreeAt(l, x) && x != dv ==> l.chunks[x].size != nb
  }

  /** All binned chunks that hold nb bytes have at least s. */
  ghost predicate BinnedAtLeast(l: Layout, binned: set<nat>, nb: nat, s: nat) {
    forall x :: x in binned && x in l.chunks && nb <= l.chunks[x].size ==> s <= l.chunks[x].size
  }

  ghost predicate NoBinned(l: Layout, binned: set<nat>, nb: nat) {
    forall x :: x in binned && x in l.chunks ==> l.chunks[x].size < nb
  }

  /** A best fit of the binned chunks obeys the policy, for large requests if it also beats the victim. */
  lemma BinnedPolicy(l: Layout, dv: nat, dvsize: nat, nb: nat, small: bool, p: nat)
    requires LayoutOk(l) && DvOk(l, dv, dvsize) && p in Binnable(l, dv) && nb <= l.chunks[p].size
    requires BinnedAtLeast(l, Binnable(l, dv), nb, l.chunks[p].size)
    requires dvsize < nb || if small then l.chunks[p].size == nb else l.chunks[p].size < dvsize
    ensures Policy(l, dv, nb, small, p) && !NoFit(l, nb)
  {
    ZeroNoChunk(l);
    hide LayoutOk;
    assert Fits(l, p, nb);
    forall x | Fits(l, x, nb) && x != dv ensures l.chunks[p].size <= l.chunks[x].size {
      assert x in Binnable(l, dv);
    }
  }

  lemma DvPolicy(l: Layout, dv: nat, dvsize: nat, nb: nat, small: bool)
    requires LayoutOk(l) && DvOk(l, dv, dvsize) && 0 < nb <= dvsize
    requires if small then NoneExact(l, dv, nb) else BinnedAtLeast(l, Binnable(l, dv), nb, dvsize)
    ensures Policy(l, dv, nb, small, dv) && !NoFit(l, nb)
  {
    hide LayoutOk;
    assert Fits(l, dv, nb);
    if !small {
      forall x | Fits(l, x, nb) ensures dvsize <= l.chunks[x].size {
        assert x != dv ==> x in Binnable(l, dv);
      }
    }
  }

  /** What the policy means for a request, by what is free. */
  lemma PolicyTells(l: Layout, dv: nat, dvsize: nat, nb: nat, small: bool, p: nat)
    requires Policy(l, dv, nb, small, p) && DvOk(l, dv, dvsize) && 0 < nb && 0 !in l.chunks
    ensures (forall x :: FreeAt(l, x) ==> l.chunks[x].size < nb) ==> p == l.top
    ensures !small || dvsize < nb ==> forall y :: FreeAt(l, y) && nb <= l.chunks[y].size ==>
      FreeAt(l, p) && nb <= l.chunks[p].size <= l.chunks[y].size
    ensures small && (exists x :: FreeAt(l, x) && x != dv && l.chunks[x].size == nb) ==>
      FreeAt(l, p) && p != dv && l.chunks[p].size == nb
    ensures small && nb <= dvsize && (forall x :: FreeAt(l, x) && x != dv ==> l.chunks[x].size != nb) ==> p == dv
  {}

  lemma TopPolicy(l: Layout, dv: nat, dvsize: nat, nb: nat, small: bool)
    requires LayoutOk(l) && DvOk(l, dv, dvsize) && dvsize < nb && NoBinned(l, Binnable(l, dv), nb)
    ensures NoFit(l, nb) && Policy(l, dv, nb, small, l.top)
  {
    ZeroNoChunk(l);
    hide LayoutOk;
    forall x | FreeAt(l, x) ensures l.chunks[x].size < nb {
      assert x != dv ==> x in Binnable(l, dv);
    }
  }

  lemma VictimIs(l: Layout, dv: nat, dvsize: nat)
    requires DvOk(l, dv, dvsize)
    ensures dv != 0 ==> FreeAt(l, dv) && l.chunks[dv].size == dvsize
  {}

  lemma UsedBehind(l: Layout, p: nat)
    requires NoAdjacentFree(l) && FreeAt(l, p)
    ensures EndOf(l, p) in l.chunks && l.chunks[EndOf(l, p)].used
  {
    assert Fenced(l, p);
  }

  lemma BinnableFree(l: Layout, dv: nat, p: nat)
    requires p in Binnable(l, dv)
    ensures FreeAt(l, p) && p != dv
  {}

  lemma ExactLeast(l: Layout, dv: nat, nb: nat)
    ensures BinnedAtLeast(l, Binnable(l, dv), nb, nb)
  {}

  lemma UserNarrow(l: Layout, l': Layout, m: Memory, m': Memory)
    requires UserSame(l', m, m') && KeepsUsed(l, l')
    ensures UserSame(l, m, m')
  {
    hide UserSame;
    UserShrinks(l', l, m, m');
  }

  /** Every small binned chunk is announced by its map bit. */
  lemma BinnedMarked(l: Layout, m: Memory, smallmap: bv32, treemap: bv32, z: Bins, x: nat)
    requires BinsOk(l, m, smallmap, treemap, z) && x in z.binned && x in l.chunks && IsSmall(l.chunks[x].size)
    ensures SmallIndex(l.chunks[x].size) < NBINS && Marked(smallmap, SmallIndex(l.chunks[x].size))
    ensures l.chunks[x].size == 8 * SmallIndex(l.chunks[x].size)
  {
    ghost var s, j := BinnedOnRing(l, m, smallmap, treemap, z, x);
    hide BinsOk, Marked;
    SmallRing(l, m, smallmap, treemap, z, s);
  }

  /** The chunks of the next marked small bin are the smallest binned chunks that fit. */
  lemma NextBinLeast(l: Layout, m: Memory, smallmap: bv32, treemap: bv32, z: Bins, nb: nat, idx: nat, i: nat)
    requires BinsOk(l, m, smallmap, treemap, z) && nb == 8 * idx && idx < i < NBINS && !Marked(smallmap, idx)
    requires forall j :: idx < j < i ==> !Marked(smallmap, j)
    ensures BinnedAtLeast(l, z.binned, nb, 8 * i)
  {
    hide BinsOk, Marked;
    forall x | x in z.binned && x in l.chunks && nb <= l.chunks[x].size ensures 8 * i <= l.chunks[x].size {
      if IsSmall(l.chunks[x].size) { BinnedMarked(l, m, smallmap, treemap, z, x); }
    }
  }

  /** With no small bin marked from idx on, the binned chunks that fit are large. */
  lemma NoSmallBinned(l: Layout, m: Memory, smallmap: bv32, treemap: bv32, z: Bins, nb: nat, idx: nat)
    requires BinsOk(l, m, smallmap, treemap, z) && nb == 8 * idx
    requires forall j :: idx <= j < NBINS ==> !Marked(smallmap, j)
    ensures forall x :: x in z.binned && x in l.chunks && nb <= l.chunks[x].size ==> MIN_LARGE <= l.chunks[x].size
  {
    hide BinsOk, Marked;
    forall x | x in z.binned && x in l.chunks && nb <= l.chunks[x].size ensures MIN_LARGE <= l.chunks[x].size {
      if IsSmall(l.chunks[x].size) { BinnedMarked(l, m, smallmap, treemap, z, x); }
    }
  }

  lemma SmallestPolicy(l: Layout, dv: nat, z: Bins, nb: nat, v: nat)
    requires BestFit(l, z, MIN_LARGE, v) && v != 0 && z.binned == Binnable(l, dv) && nb < MIN_LARGE
    requires forall x :: x in z.binned && x in l.chunks && nb <= l.chunks[x].size ==> MIN_LARGE <= l.chunks[x].size
    ensures v in Binnable(l, dv) && v in l.chunks && !IsSmall(l.chunks[v].size)
    ensures BinnedAtLeast(l, Binnable(l, dv), nb, l.chunks[v].size)
  {}

  lemma PageSize(s: nat)
    ensures s <= GranularityAlign(s) && GranularityAlign(s) % 4096 == 0 && GranularityAlign(s) % 16 == 0
    ensures GranularityAlign(s) < s + 4096
  {
    var k := (s + 4095) / 4096;
    assert GranularityAlign(s) == 4096 * k;
    Times4096(k);
  }

  lemma Times4096(k: nat)
    ensures 4096 * k % 4096 == 0 && 4096 * k % 16 == 0
  {
    Mod16(256 * k);
  }

  lemma BinnedNone(binned: set<nat>)
    ensures binned !! {}
  {}

  lemma DvBelowArena(l: Layout, dv: nat, dvsize: nat)
    requires LayoutOk(l) && DvOk(l, dv, dvsize)
    ensures dvsize < ARENA
  {
    if dv != 0 { assert ChunkOk(l, dv); }
  }

  /** What the comparison of remainders says about the best fit and the victim. */
  lemma LargePolicy(l: Layout, z: Bins, nb: nat, dvsize: nat, v: nat, rsize: nat)
    requires BestFit(l, z, nb, v) && MIN_LARGE <= nb < ARENA && dvsize < ARENA
    requires v != 0 ==> v in l.chunks && l.chunks[v].size == nb + rsize && rsize < ARENA
    requires v == 0 ==> rsize == WORD - nb
    ensures v != 0 && rsize < Sub(dvsize, nb) ==>
      && v in z.binned && v in l.chunks && !IsSmall(l.chunks[v].size)
      && BinnedAtLeast(l, z.binned, nb, l.chunks[v].size) && (dvsize < nb || l.chunks[v].size < dvsize)
    ensures !(v != 0 && rsize < Sub(dvsize, nb)) ==>
      if nb <= dvsize then BinnedAtLeast(l, z.binned, nb, dvsize) else NoBinned(l, z.binned, nb)
  {
    hide FreeAt;
  }

  /** How much a request makes the heap grow. */
  ghost function Growth(l: Layout, topsize: nat, nb: nat): nat {
    if NoFit(l, nb) && topsize <= nb then GranularityAlign(nb - topsize + 96) else 0
  }

  /** The most by which the heap grows to serve a request. */
  function Demand(bytes: nat): nat {
    if bytes >= MAX_REQUEST then 0 else GranularityAlign(Request2Size(bytes) + 96)
  }

  lemma GrowthBound(l: Layout, topsize: nat, bytes: nat)
    requires bytes < MAX_REQUEST
    ensures Growth(l, topsize, Request2Size(bytes)) <= Demand(bytes)
  {
    var nb := Request2Size(bytes);
    if topsize <= nb { AlignMono(nb - topsize + 96, nb + 96); }
    hide Request2Size, GranularityAlign, NoFit;
  }

  /**
   * The heap grows by whole pages, by what top lacks with its foot and less than a page more, and only where nothing
   * fits.
   */
  lemma GrowthTells(l: Layout, topsize: nat, nb: nat)
    ensures Growth(l, topsize, nb) % 4096 == 0
    ensures (exists x :: FreeAt(l, x) && nb <= l.chunks[x].size) || nb < topsize ==> Growth(l, topsize, nb) == 0
    ensures (forall x :: FreeAt(l, x) ==> l.chunks[x].size < nb) && topsize <= nb ==>
      nb + 96 <= topsize + Growth(l, topsize, nb) < nb + 96 + 4096
  {
    if topsize <= nb { PageSize(nb - topsize + 96); }
    hide GranularityAlign;
  }

  /** A request for which there is room is smaller than the arena. */
  lemma NeedBelowArena(l: Layout, topsize: nat, footprint: nat, nb: nat)
    requires LayoutOk(l) && topsize == l.end - l.top && footprint == l.end + TOP_FOOT - l.base
    requires footprint + Growth(l, topsize, nb) <= ARENA
    ensures nb < ARENA
  {
    if topsize <= nb {
      if NoFit(l, nb) {
        PageSize(nb - topsize + 96);
      } else {
        var x :| FreeAt(l, x) && l.chunks[x].size >= nb;
        assert ChunkOk(l, x);
      }
    }
    hide GranularityAlign;
  }

  lemma AlignMono(s: nat, t: nat)
    requires s <= t
    ensures GranularityAlign(s) <= GranularityAlign(t)
  {}

  /** The padded size of a request. */
  lemma RequestSizes(bytes: nat)
    requires bytes < WORD
    ensures var nb := Request2Size(bytes);
      && nb % 16 == 0 && 32 <= nb && bytes + 8 <= nb && (nb == 32 || nb < bytes + 24)
      && nb == 8 * SmallIndex(nb)
    ensures bytes <= MAX_SMALL_REQUEST ==>
      && SmallIndex(Request2Size(bytes)) + 1 < NBINS && Request2Size(bytes) < MIN_LARGE
    ensures bytes > MAX_SMALL_REQUEST ==> Request2Size(bytes) == PadRequest(bytes) && MIN_LARGE <= Request2Size(bytes)
  {
    var k := (bytes + 23) / 16;
    assert PadRequest(bytes) == 16 * k;
    Mod16(k);
  }

  /** The system request for nb bytes, and the wrap-around that refuses the largest word. */
  lemma RequestPages(nb: nat)
    requires nb == WORD - 1 || nb + 96 < WORD - 4096
    ensures var asize := GranularityAlign((nb + 96) % WORD) % WORD;
      && (asize <= nb <==> nb == WORD - 1)
      && (nb != WORD - 1 ==> asize == GranularityAlign(nb + 96) && asize % 16 == 0 && nb + 96 <= asize)
  {
    if nb == WORD - 1 {
      assert (nb + 96) % WORD == 95;
    } else {
      PageSize(nb + 96);
    }
  }

  // ----- searches that miss

  /** The bin after the exact one is always empty, as chunk sizes are multiples of 16. */
  lemma ExactBin(l: Layout, m: Memory, smallmap: bv32, treemap: bv32, z: Bins, nb: nat, idx: nat)
    requires RowOk(l, m) && BinsOk(l, m, smallmap, treemap, z) && nb == 8 * idx && nb % 16 == 0 && idx + 1 < NBINS
    requires LowTwo(ShiftRight(smallmap, idx))
    ensures LowBitClear(ShiftRight(smallmap, idx)) == 0 && Marked(smallmap, idx)
  {
    hide LayoutOk, TagsOk, NoAdjacentFree, BinsOk, LowTwo, ShiftRight, LowBitClear, Marked, Get;
    RemainderlessFit(smallmap, idx);
    if Marked(smallmap, idx + 1) {
      FirstOfSmall(l, m, smallmap, treemap, z, idx + 1);
      ReadChunk(l, m, z.rings[8 * (idx + 1)][1]);
    }
  }

  /** What a miss in the small bins says. */
  lemma SmallMiss(l: Layout, m: Memory, smallmap: bv32, treemap: bv32, z: Bins, dv: nat, nb: nat, idx: nat)
    requires BinsOk(l, m, smallmap, treemap, z) && z.binned == Binnable(l, dv) && nb == 8 * idx && idx + 1 < NBINS
    requires !LowTwo(ShiftRight(smallmap, idx))
    ensures NoneExact(l, dv, nb)
    ensures ShiftRight(smallmap, idx) == 0 ==>
      forall x :: x in z.binned && x in l.chunks && nb <= l.chunks[x].size ==> MIN_LARGE <= l.chunks[x].size
    ensures ShiftRight(smallmap, idx) == 0 && treemap == 0 ==> NoBinned(l, z.binned, nb)
  {
    hide BinsOk, LowTwo, ShiftRight, LowBitClear, Marked, LeftBits, LeastBit, And, ShiftLeft, NoBinned;
    RemainderlessFit(smallmap, idx);
    NextSmallMarked(smallmap, idx);
    forall x | FreeAt(l, x) && x != dv ensures l.chunks[x].size != nb {
      assert x in z.binned;
      if l.chunks[x].size == nb { BinnedMarked(l, m, smallmap, treemap, z, x); }
    }
    if ShiftRight(smallmap, idx) == 0 {
      NoSmallBinned(l, m, smallmap, treemap, z, nb, idx);
      if treemap == 0 { TreeMiss(l, m, smallmap, z, MIN_LARGE, 0); AllBelow(l, z.binned, nb); }
    }
  }

  lemma AllBelow(l: Layout, binned: set<nat>, nb: nat)
    requires NoBinned(l, binned, MIN_LARGE)
    requires forall x :: x in binned && x in l.chunks && nb <= l.chunks[x].size ==> MIN_LARGE <= l.chunks[x].size
    ensures NoBinned(l, binned, nb)
  {}

  /** With no tree bin marked, no binned chunk is large. */
  lemma TreeMiss(l: Layout, m: Memory, smallmap: bv32, z: Bins, nb: nat, s: nat)
    requires BinsOk(l, m, smallmap, 0, z) && nb >= MIN_LARGE
    ensures NoBinned(l, z.binned, nb) && BinnedAtLeast(l, z.binned, nb, s)
  {
    forall x | x in z.binned && x in l.chunks ensures l.chunks[x].size < nb {
      if l.chunks[x].size >= MIN_LARGE {
        LargeSeated(l, m, smallmap, 0, z, x);
        HasShape(l, m, smallmap, 0, z);
        BelowRoot(z, l.chunks[x].size);
        RootMarked(l, m, smallmap, 0, z, z.pos[l.chunks[x].size].bin);
        EmptyMap(z.pos[l.chunks[x].size].bin);
      }
    }
    hide BinsOk;
  }

  lemma RootMarked(l: Layout, m: Memory, smallmap: bv32, treemap: bv32, z: Bins, b: nat)
    requires BinsOk(l, m, smallmap, treemap, z) && b < NTREEBINS && RootPos(b) in z.tree
    ensures Marked(treemap, b)
  {
    hide RingsOk, LinksOk, TreeShape, WordsOk, ChainsOk, Marked;
  }

  lemma EmptyMap(i: nat)
    requires i < NBINS
    ensures !Marked(0, i)
  {
    hide Idx2Bit;
  }

  /** An empty small map has nothing at or after any index. */
  lemma FreshMiss(idx: nat)
    requires idx + 1 < NBINS
    ensures !LowTwo(ShiftRight(0, idx)) && ShiftRight(0, idx) == 0
  {
    hide LowTwo, ShiftRight, LowBitClear, Marked, LeftBits, LeastBit, And, ShiftLeft;
    forall j | 0 <= j < NBINS ensures !Marked(0, j) { EmptyMap(j); }
    RemainderlessFit(0, idx);
    NextSmallMarked(0, idx);
  }

  lemma HugeMiss(l: Layout, binned: set<nat>, nb: nat)
    requires LayoutOk(l) && nb >= ARENA
    ensures NoBinned(l, binned, nb)
  {
    forall x | x in binned && x in l.chunks ensures l.chunks[x].size < nb { assert ChunkOk(l, x); }
  }

  lemma FreshPolicy(l: Layout, dv: nat, nb: nat, small: bool)
    requires l.chunks == map[]
    ensures NoFit(l, nb) && Policy(l, dv, nb, small, l.top)
  {}

  lemma ArenaSizes(l: Layout, dv: nat, dvsize: nat)
    requires LayoutOk(l) && DvOk(l, dv, dvsize)
    ensures dvsize < ARENA && l.end - l.top < ARENA
  {
    DvBelowArena(l, dv, dvsize);
  }
}
