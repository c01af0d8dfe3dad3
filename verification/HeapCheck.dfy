/**
 * The allocator's own consistency checks. Each method says whether every check it makes succeeds; in a
 * valid heap all of them do.
 */
module HeapCheck {
  import opened BinIndex
  import opened BinMaps
  import opened HeapLayout
  import opened HeapTrie
  import opened HeapBins
  import opened HeapNodes
  import opened HeapOps
  import opened HeapWalk
  import opened HeapUnlink
  import opened HeapEdits
  import opened HeapState
  import opened HeapSearch
  import opened Heap
  import opened Words

  const FENCEPOST_HEAD: nat := 11

  predicate IsInuse(h: nat) {
    h % 4 != 1
  }

  predicate IsMmapped(h: nat) {
    h % 4 == 0
  }

  lemma HeadBits(h: nat)
    ensures IsInuse(h) <==> Cinuse(h) || !Pinuse(h)
    ensures IsMmapped(h) <==> !Cinuse(h) && !Pinuse(h)
  {}

  // ----- looking for a chunk in the bins

  /** Goes round a ring, from its first entry until it is back there. */
  method RingFind(h: Heap, start: nat, x: nat, ghost s: nat) returns (found: bool)
    requires BinsOk(h.l, h.mem, h.smallmap, h.treemap, h.z) && s in h.z.rings && (|h.z.rings[s]| > 1 || !IsSmall(s))
    requires |h.z.rings[s]| > 0 && h.z.rings[s][0] == start
    ensures found <==> x in h.z.rings[s]
  {
    hide BinsOk, Get, Live;
    ghost var r := h.z.rings[s];
    var p := start;
    ghost var j := 0;
    while true
      invariant 0 <= j < |r| && p == r[j] && forall k :: 0 <= k < j ==> r[k] != x
      decreases |r| - j
    {
      if p == x {
        return true;
      }
      RingNeighbours(h.l, h.mem, h.smallmap, h.treemap, h.z, s, j);
      p := Get(h.mem, Fd(p));
      if p == start {
        assert Next(r, j) == 0 by { if Next(r, j) != 0 { assert false; } }
        return false;
      }
      j := j + 1;
    }
  }

  /** The size in the head of a chunk or of top. */
  ghost function RowSize(l: Layout, x: nat): int {
    if x in l.chunks then l.chunks[x].size else l.end - l.top
  }

  lemma RowRead(l: Layout, m: Memory, x: nat)
    requires RowOk(l, m) && InRow(l, x)
    ensures ChunkSize(Get(m, Head(x))) == RowSize(l, x) && 0 < RowSize(l, x) < ARENA && RowSize(l, x) % 16 == 0
  {
    if x in l.chunks {
      ReadChunk(l, m, x);
    } else {
      Aligned(l.end, l.top);
      TagReads(Get(m, Head(l.top)), l.end - l.top, false);
    }
    hide TagsOk, NoAdjacentFree, Get, ChunkSize;
  }

  /** A chunk is binned exactly if it is on the ring of its size; top is on no ring. */
  lemma OnItsRing(l: Layout, m: Memory, smallmap: bv32, treemap: bv32, z: Bins, x: nat)
    requires LayoutOk(l) && BinsOk(l, m, smallmap, treemap, z) && InRow(l, x)
    ensures x in z.binned <==> RowSize(l, x) in z.rings && x in z.rings[RowSize(l, x)]
    ensures !IsHeader(x)
  {
    hide LinksOk, TreeShape, WordsOk, ChainsOk, MapsOk;
    var s := RowSize(l, x);
    RowBounds(l, x);
    TopNotChunk(l);
    if x in z.binned {
      assert MemberOk(l, z, x);
    }
    if s in z.rings { assert RingOk(z, s); }
    assert forall j :: OnRing(z, s, j) ==> z.rings[s][j] in z.binned;
  }

  /** Says whether a chunk is in a bin. */
  method BinFind(h: Heap, x: nat) returns (found: bool)
    requires h.Ready() && InRow(h.l, x)
    ensures found <==> x in h.z.binned
  {
    ghost var l, m, z := h.l, h.mem, h.z;
    hide BinsOk, RowOk, LayoutOk, Get, Live, Marked, TreeIndex;
    RowRead(l, m, x);
    RowLayout(l, m);
    OnItsRing(l, m, h.smallmap, h.treemap, z, x);
    var size := ChunkSize(Get(h.mem, Head(x)));
    found := false;
    hide TagsOk, NoAdjacentFree, Binnable, DvOk;
    if IsSmall(size) {
      found := SmallFind(h, x, size);
    } else {
      found := TreeFind(h, x, size);
    }
  }

  /** A small chunk is looked for on the ring of its bin, if the bin is marked. */
  method SmallFind(h: Heap, x: nat, size: nat) returns (found: bool)
    requires h.Ready() && InRow(h.l, x) && size == RowSize(h.l, x) && IsSmall(size)
    ensures found <==> x in h.z.binned
  {
    ghost var l, m, z := h.l, h.mem, h.z;
    hide BinsOk, RowOk, LayoutOk, Get, Live, Marked, TagsOk, NoAdjacentFree, Binnable, DvOk, RowSize, InRow, IsHeader,
      Header;
    var i := SmallIndex(size);
    SmallSpot(l, m, h.smallmap, h.treemap, z, x, size);
    found := false;
    if Marked(h.smallmap, i) {
      found := RingFind(h, Header(i), x, size);
    }
  }

  /** Where a small chunk is, if it is binned. */
  lemma SmallSpot(l: Layout, m: Memory, smallmap: bv32, treemap: bv32, z: Bins, x: nat, size: nat)
    requires RowOk(l, m) && BinsOk(l, m, smallmap, treemap, z) && InRow(l, x) && size == RowSize(l, x) && IsSmall(size)
    ensures var i := SmallIndex(size);
      && i < NBINS && size == 8 * i && 8 * i in z.rings && |z.rings[8 * i]| > 0 && z.rings[8 * i][0] == Header(i)
      && (Marked(smallmap, i) <==> |z.rings[8 * i]| > 1) && x != Header(i) && (x in z.binned <==> x in z.rings[8 * i])
  {
    hide BinsOk, RowOk, LayoutOk, Get, Live, Marked, TagsOk, NoAdjacentFree, RowSize, InRow, IsHeader, Header;
    RowRead(l, m, x);
    RowLayout(l, m);
    OnItsRing(l, m, smallmap, treemap, z, x);
    SmallMarked(l, m, smallmap, treemap, z, SmallIndex(size));
    HeaderIs(SmallIndex(size));
  }

  lemma RowLayout(l: Layout, m: Memory)
    requires RowOk(l, m)
    ensures LayoutOk(l) && TagsOk(l, m) && NoAdjacentFree(l)
  {}

  lemma SmallMarked(l: Layout, m: Memory, smallmap: bv32, treemap: bv32, z: Bins, i: nat)
    requires BinsOk(l, m, smallmap, treemap, z) && i < NBINS
    ensures 8 * i in z.rings && |z.rings[8 * i]| > 0 && z.rings[8 * i][0] == Header(i)
    ensures (Marked(smallmap, i) <==> |z.rings[8 * i]| > 1)
  {
    hide LinksOk, TreeShape, WordsOk, ChainsOk, Marked;
    assert RingOk(z, 8 * i);
  }

  /** The same for a large chunk: down the trie to its size, then round the ring. */
  method TreeFind(h: Heap, x: nat, size: nat) returns (found: bool)
    requires h.Ready() && InRow(h.l, x) && size == RowSize(h.l, x) && !IsSmall(size)
    ensures found <==> x in h.z.binned
  {
    ghost var l, m, z := h.l, h.mem, h.z;
    hide BinsOk, RowOk, LayoutOk, Get, Live, Marked, TreeIndex, PosOk, Undecided;
    RowRead(l, m, x);
    RowLayout(l, m);
    OnItsRing(l, m, h.smallmap, h.treemap, z, x);
    RingHasNode(l, m, h.smallmap, h.treemap, z, size);
    var i := TreeIndex(size);
    SeeRoot(l, m, h.smallmap, h.treemap, z, i);
    if Marked(h.treemap, i) {
      RootOnPath(z, i, size);
      var t := Get(h.mem, Root(i));
      var sizebits := Shl(size, LeftShift(i));
      ghost var q := RootPos(i);
      See(l, m, h.smallmap, h.treemap, z, q);
      while t != 0 && ChunkSize(Get(h.mem, Head(t))) != size
        invariant t != 0 ==> OnPath(z, i, size, q) && Seen(m, z, q, t) && sizebits == Undecided(i, size, q.depth)
        invariant t != 0 ==> size in z.pos ==> z.pos[size].depth >= q.depth
        invariant t == 0 ==> size !in z.pos
        decreases t != 0, Width(i) - q.depth
      {
        StepFacts(l, m, h.smallmap, h.treemap, z, i, size, q, sizebits);
        ghost var p := Down(q, SignBit(sizebits));
        t := Get(h.mem, Child(t, SignBit(sizebits)));
        sizebits := ShiftOne(sizebits);
        if t != 0 {
          q := p;
          See(l, m, h.smallmap, h.treemap, z, q);
        }
      }
      if t != 0 {
        NodeHere(l, m, h.smallmap, h.treemap, z, q);
        found := RingFind(h, t, x, size);
        return;
      }
    } else {
      NoRootNoSize(l, m, h.smallmap, h.treemap, z, size);
    }
    found := false;
  }

  /** Large sizes with a ring are in a trie. */
  lemma RingHasNode(l: Layout, m: Memory, smallmap: bv32, treemap: bv32, z: Bins, s: nat)
    requires BinsOk(l, m, smallmap, treemap, z) && !IsSmall(s)
    ensures s in z.rings ==> s in z.pos
  {
    hide LinksOk, TreeShape, WordsOk, ChainsOk, MapsOk;
    if s in z.rings { assert RingOk(z, s); }
  }

  lemma NoRootNoSize(l: Layout, m: Memory, smallmap: bv32, treemap: bv32, z: Bins, s: nat)
    requires BinsOk(l, m, smallmap, treemap, z) && RootPos(TreeIndex(s)) !in z.tree
    ensures s !in z.pos
  {
    HasShape(l, m, smallmap, treemap, z);
    hide BinsOk, TreeIndex;
    if s in z.pos {
      assert NodeOk(z, s);
      BelowRoot(z, s);
    }
  }

  // ----- one chunk

  predicate NextPinuse(m: Memory, p: nat) {
    Pinuse(Get(m, Head(p + ChunkSize(Get(m, Head(p))))))
  }

  /** Aligned, and within the heap. */
  predicate AnyChunkChecks(h: Heap, p: nat)
    reads h
  {
    p % 16 == 0 && p >= h.segBase
  }

  /** The size of top is as recorded and reaches to the foot of the segment; the tags around it say it is free. */
  predicate TopChunkChecks(h: Heap, p: nat)
    reads h
  {
    var hd := Get(h.mem, Head(p));
    var sz := hd - hd % 4;
    && AnyChunkChecks(h, p)
    && sz == h.topsize && sz > 0 && sz == h.segBase + h.segSize - p - TOP_FOOT
    && Pinuse(hd) && !Pinuse(Get(h.mem, Head(p + sz)))
  }

  /** In use, the next chunk knows, and a free chunk before it leads back to it. */
  predicate InuseChunkChecks(h: Heap, p: nat)
    reads h
  {
    var hd, foot := Get(h.mem, Head(p)), Get(h.mem, Foot(p));
    && AnyChunkChecks(h, p) && IsInuse(hd) && NextPinuse(h.mem, p)
    && (IsMmapped(hd) || Pinuse(hd) || (foot <= p && p - foot + ChunkSize(Get(h.mem, Head(p - foot))) == p))
    && !IsMmapped(hd)
  }

  /** Free, the next chunk knows and has its size, it is surrounded by used chunks, and its links lead back to it. */
  predicate FreeChunkChecks(h: Heap, p: nat)
    reads h
  {
    var hd := Get(h.mem, Head(p));
    var sz := ChunkSize(hd);
    var next := p + sz;
    && AnyChunkChecks(h, p) && !IsInuse(hd) && !NextPinuse(h.mem, p) && !IsMmapped(hd)
    && (p == h.dv || p == h.top ||
        if sz >= MIN_CHUNK then
          && sz % 16 == 0 && p % 16 == 0 && Get(h.mem, Foot(next)) == sz && Pinuse(hd)
          && (next == h.top || IsInuse(Get(h.mem, Head(next))))
          && Get(h.mem, Bk(Get(h.mem, Fd(p)))) == p && Get(h.mem, Fd(Get(h.mem, Bk(p)))) == p
        else sz == 8)
  }

  lemma AnyChunkPasses(h: Heap, p: nat)
    requires h.Ready() && InRow(h.l, p)
    ensures AnyChunkChecks(h, p)
  {
    RowBounds(h.l, p);
  }

  lemma TopChunkPasses(h: Heap)
    requires h.Ready()
    ensures TopChunkChecks(h, h.top)
  {
    TopRead(h.l, h.mem);
    hide RowOk, BinsOk, Get, Pinuse, LayoutOk, AnyChunkChecks;
    AnyChunkPasses(h, h.top);
  }

  lemma TopRead(l: Layout, m: Memory)
    requires RowOk(l, m)
    ensures var hd := Get(m, Head(l.top)); hd - hd % 4 == l.end - l.top && Pinuse(hd) && !Pinuse(Get(m, Head(l.end)))
    ensures InRow(l, l.top) && l.top < l.end
  {
    TopPinuse(l, m);
    Aligned(l.end, l.top);
    var n, hd := l.end - l.top, Get(m, Head(l.top));
    assert IsTag(hd, n, false);
    assert n == 16 * (n / 16);
    assert hd == n || hd == n + 1;
    hide LayoutOk, TagsOk, NoAdjacentFree, Get;
  }

  lemma InuseChunkPasses(h: Heap, p: nat)
    requires h.Ready() && p in h.l.chunks && h.l.chunks[p].used
    ensures InuseChunkChecks(h, p)
  {
    hide RowOk, BinsOk, Get, Pinuse, Cinuse, LayoutOk, ChunkSize, AnyChunkChecks;
    var l, m := h.l, h.mem;
    RowLayout(l, m);
    ReadChunk(l, m, p);
    ReadNext(l, m, p);
    var hd := Get(m, Head(p));
    HeadBits(hd);
    AnyChunkPasses(h, p);
    if !IsMmapped(hd) && !Pinuse(hd) {
      ReadPrev(l, m, p);
      ReadChunk(l, m, p - Get(m, Foot(p)));
    }
  }

  lemma FreeChunkPasses(h: Heap, p: nat)
    requires h.Ready() && FreeAt(h.l, p)
    ensures FreeChunkChecks(h, p)
  {
    var l, m := h.l, h.mem;
    hide RowOk, BinsOk, Get, Live, ChunkSize, Cinuse, Pinuse, IsInuse, IsMmapped, NextPinuse, AnyChunkChecks;
    RowLayout(l, m);
    hide LayoutOk, TagsOk, NoAdjacentFree;
    ReadChunk(l, m, p);
    FreeHead(l, m, p);
    FreeFoot(l, m, p);
    AnyChunkPasses(h, p);
    if p != h.dv && p != h.top {
      InBinnable(l, h.dv, p);
      BinnedLinks(l, m, h.smallmap, h.treemap, h.z, p);
    }
  }

  /** A free chunk repeats its size behind itself, and a used chunk follows. */
  lemma FreeFoot(l: Layout, m: Memory, p: nat)
    requires RowOk(l, m) && FreeAt(l, p)
    ensures Get(m, Foot(EndOf(l, p))) == l.chunks[p].size && EndOf(l, p) in l.chunks
    ensures IsInuse(Get(m, Head(EndOf(l, p))))
  {
    assert AfterOk(l, m, p) && Fenced(l, p);
    ReadChunk(l, m, EndOf(l, p));
    HeadBits(Get(m, Head(EndOf(l, p))));
    hide LayoutOk, TagsOk, NoAdjacentFree, Get, Cinuse;
  }

  /** The links of a binned chunk lead back to it. */
  lemma BinnedLinks(l: Layout, m: Memory, smallmap: bv32, treemap: bv32, z: Bins, p: nat)
    requires LayoutOk(l) && BinsOk(l, m, smallmap, treemap, z) && p in z.binned && p in l.chunks
    ensures Get(m, Bk(Get(m, Fd(p)))) == p && Get(m, Fd(Get(m, Bk(p)))) == p
  {
    var s := l.chunks[p].size;
    OnItsRing(l, m, smallmap, treemap, z, p);
    RingStarts(l, m, smallmap, treemap, z, s);
    hide BinsOk, LayoutOk, Get, Live, AllBinCellsLive;
    var j :| 0 <= j < |z.rings[s]| && z.rings[s][j] == p;
    RingNeighbours(l, m, smallmap, treemap, z, s, j);
  }

  /** A small ring starts with its header, so one that holds a chunk is longer. */
  lemma RingStarts(l: Layout, m: Memory, smallmap: bv32, treemap: bv32, z: Bins, s: nat)
    requires BinsOk(l, m, smallmap, treemap, z) && s in z.rings
    ensures |z.rings[s]| > 0 && (IsSmall(s) ==> IsHeader(z.rings[s][0]))
  {
    hide LinksOk, TreeShape, WordsOk, ChainsOk, MapsOk;
    assert RingOk(z, s);
    if IsSmall(s) { HeaderIs(s / 8); }
  }

  lemma HeaderIs(i: nat)
    requires i < 32
    ensures IsHeader(Header(i))
  {
    Mod16(0x100 + i);
  }

  // ----- the whole heap

  /**
   * Goes over all chunks from the start of the segment to top. Every check succeeds, and the sizes found, with
   * top and its foot, add up to the footprint.
   */
  method TraverseAndCheck(h: Heap) returns (ok: bool, sum: nat)
    requires h.Valid()
    ensures ok && sum == h.footprint
  {
    ok, sum := true, 0;
    if h.top != 0 {
      ghost var l, m := h.l, h.mem;
      RowLayout(l, m);
      TopNotChunk(l);
      hide RowOk, BinsOk, Get, LayoutOk, TagsOk, NoAdjacentFree, Pinuse, Cinuse, InuseChunkChecks, FreeChunkChecks;
      sum := h.topsize + TOP_FOOT;
      var q, lastq := h.segBase, 0;
      BaseRead(l, m);
      ok := Pinuse(Get(h.mem, Head(q)));
      while h.segBase <= q < h.segBase + h.segSize && q != h.top && Get(h.mem, Head(q)) != FENCEPOST_HEAD
        invariant InRow(l, q) && l.base <= q && ok && sum == h.topsize + TOP_FOOT + (q - l.base)
        invariant lastq != 0 ==> lastq in l.chunks && EndOf(l, lastq) == q
        invariant q <= l.top
        decreases l.top - q
      {
        ReadChunk(l, m, q);
        HeadBits(Get(h.mem, Head(q)));
        PinuseOfFree(l, m, q);
        sum := sum + ChunkSize(Get(h.mem, Head(q)));
        var binned := BinFind(h, q);
        if IsInuse(Get(h.mem, Head(q))) {
          InuseChunkPasses(h, q);
          BinnedNotUsed(l, h.dv, q);
          ok := ok && !binned && InuseChunkChecks(h, q);
        } else {
          InBinnable2(l, h.dv, q);
          ok := ok && (q == h.dv || binned);
          if lastq != 0 {
            LastUsed(l, m, lastq, q);
            ok := ok && IsInuse(Get(h.mem, Head(lastq)));
          }
          FreeChunkPasses(h, q);
          ok := ok && FreeChunkChecks(h, q);
        }
        lastq := q;
        q := q + ChunkSize(Get(h.mem, Head(q)));
      }
      StopsAtTop(l, m, q);
    }
  }

  lemma BaseRead(l: Layout, m: Memory)
    requires RowOk(l, m)
    ensures Pinuse(Get(m, Head(l.base))) && InRow(l, l.base) && l.base <= l.top < l.end
  {}

  lemma PinuseOfFree(l: Layout, m: Memory, q: nat)
    requires RowOk(l, m)
    ensures FreeAt(l, q) ==> Pinuse(Get(m, Head(q)))
  {
    if FreeAt(l, q) { FreePinuse(l, m, q); }
  }

  lemma BinnedNotUsed(l: Layout, dv: nat, q: nat)
    requires q in l.chunks && l.chunks[q].used
    ensures q !in Binnable(l, dv)
  {}

  lemma InBinnable2(l: Layout, dv: nat, q: nat)
    requires FreeAt(l, q)
    ensures q == dv || q in Binnable(l, dv)
  {}

  /** The chunk before a free chunk is in use. */
  lemma LastUsed(l: Layout, m: Memory, lastq: nat, q: nat)
    requires RowOk(l, m) && lastq in l.chunks && EndOf(l, lastq) == q && FreeAt(l, q)
    ensures IsInuse(Get(m, Head(lastq)))
  {
    assert FreeAt(l, lastq) ==> Fenced(l, lastq);
    ReadChunk(l, m, lastq);
    HeadBits(Get(m, Head(lastq)));
    hide LayoutOk, TagsOk, NoAdjacentFree, Get, Cinuse;
  }

  /** The loop can only end at top: no chunk lies outside the segment or has the head of a fence. */
  lemma StopsAtTop(l: Layout, m: Memory, q: nat)
    requires RowOk(l, m) && InRow(l, q) && l.base <= q
    requires !(q < l.end + TOP_FOOT && q != l.top && Get(m, Head(q)) != FENCEPOST_HEAD)
    ensures q == l.top
  {
    if q in l.chunks {
      ReadChunk(l, m, q);
      RowBounds(l, q);
      hide TagsOk, NoAdjacentFree, Get;
    }
  }

  // ----- the bins

  /** Goes over a small bin from its last chunk to its first. */
  method CheckSmallbin(h: Heap, i: nat) returns (ok: bool)
    requires i < NBINS && (h.Ready() || !Marked(h.smallmap, i))
    ensures ok
  {
    hide RowOk, BinsOk, Get, LayoutOk, TagsOk, NoAdjacentFree, Marked, Live, Header, Binnable, DvOk, IsHeader;
    var b := Header(i);
    var p := Get(h.mem, Bk(b));
    var empty := !Marked(h.smallmap, i);
    if !empty { LastOnRing(h, i); }
    ok := p == b ==> empty;
    if !empty {
      var passed := CheckSmallRing(h, i, b, p);
      ok := ok && passed;
    }
  }

  /** The chunk before the header of a marked bin is the last on its ring. */
  lemma LastOnRing(h: Heap, i: nat)
    requires h.Ready() && i < NBINS && Marked(h.smallmap, i)
    ensures 8 * i in h.z.rings && |h.z.rings[8 * i]| > 1
    ensures h.z.rings[8 * i][0] == Header(i)
    ensures Get(h.mem, Bk(Header(i))) == h.z.rings[8 * i][|h.z.rings[8 * i]| - 1] != Header(i)
  {
    hide RowOk, BinsOk, Get, LayoutOk, TagsOk, NoAdjacentFree, Marked, Live, Header, Binnable, DvOk, IsHeader;
    RowLayout(h.l, h.mem);
    SmallMarked(h.l, h.mem, h.smallmap, h.treemap, h.z, i);
    RingNeighbours(h.l, h.mem, h.smallmap, h.treemap, h.z, 8 * i, 0);
  }

  /** Round the ring, backwards. */
  method CheckSmallRing(h: Heap, i: nat, b: nat, last: nat) returns (ok: bool)
    requires h.Ready() && i < NBINS && Marked(h.smallmap, i) && b == Header(i) && last == Get(h.mem, Bk(b))
    ensures ok
  {
    hide RowOk, BinsOk, Get, LayoutOk, TagsOk, NoAdjacentFree, Marked, Live, Header, Binnable, DvOk, IsHeader,
      SmallChunkChecks, IsSmall;
    LastOnRing(h, i);
    ghost var r := h.z.rings[8 * i];
    ghost var j := |r| - 1;
    var p := last;
    ok := true;
    while p != b
      invariant 0 <= j < |r| && p == r[j] && ok
      decreases j
    {
      SmallChunkPasses(h, i, b, p, j);
      RingNeighbours(h.l, h.mem, h.smallmap, h.treemap, h.z, 8 * i, j);
      ok := ok && SmallChunkChecks(h, i, b, p);
      p, j := Get(h.mem, Bk(p)), j - 1;
    }
  }

  /** A chunk of a small bin: free, of the size of the bin, as is its neighbour, and followed by a used chunk. */
  predicate SmallChunkChecks(h: Heap, i: nat, b: nat, p: nat)
    reads h
  {
    var size, bk := ChunkSize(Get(h.mem, Head(p))), Get(h.mem, Bk(p));
    && FreeChunkChecks(h, p) && SmallIndex(size) == i
    && (bk == b || ChunkSize(Get(h.mem, Head(bk))) == size)
    && (Get(h.mem, Head(p + size)) == FENCEPOST_HEAD || InuseChunkChecks(h, p + size))
  }

  lemma SmallChunkPasses(h: Heap, i: nat, b: nat, p: nat, j: nat)
    requires h.Ready() && i < NBINS && 8 * i in h.z.rings && 0 < j < |h.z.rings[8 * i]| && b == h.z.rings[8 * i][0]
    requires p == h.z.rings[8 * i][j]
    ensures SmallChunkChecks(h, i, b, p)
  {
    var l, m, z := h.l, h.mem, h.z;
    hide RowOk, BinsOk, Get, Live, Binnable, Cinuse, Pinuse, ChunkSize, FreeChunkChecks, InuseChunkChecks, DvOk,
      IsSmall;
    SmallMember(l, m, h.smallmap, h.treemap, z, i, j);
    SizeInHead(l, m, p);
    FreeChunkPasses(h, p);
    SmallBefore(l, m, h.smallmap, h.treemap, z, i, j);
    UsedAfter(l, m, p);
    InuseChunkPasses(h, EndOf(l, p));
  }

  /** Before a chunk of a small bin there is the header or a chunk of the same size. */
  lemma SmallBefore(l: Layout, m: Memory, smallmap: bv32, treemap: bv32, z: Bins, i: nat, j: nat)
    requires RowOk(l, m) && BinsOk(l, m, smallmap, treemap, z) && i < NBINS && 8 * i in z.rings
    requires 0 < j < |z.rings[8 * i]|
    ensures var r := z.rings[8 * i]; var bk := Get(m, Bk(r[j])); bk == r[0] || ChunkSize(Get(m, Head(bk))) == 8 * i
  {
    hide RowOk, BinsOk, Get, Live, AllBinCellsLive, ChunkSize;
    RingNeighbours(l, m, smallmap, treemap, z, 8 * i, j);
    if j > 1 {
      SmallMember(l, m, smallmap, treemap, z, i, j - 1);
      SizeInHead(l, m, z.rings[8 * i][j - 1]);
    }
  }

  lemma SizeInHead(l: Layout, m: Memory, p: nat)
    requires RowOk(l, m) && p in l.chunks
    ensures ChunkSize(Get(m, Head(p))) == l.chunks[p].size
  {
    ReadChunk(l, m, p);
  }

  lemma UsedAfter(l: Layout, m: Memory, p: nat)
    requires RowOk(l, m) && FreeAt(l, p)
    ensures EndOf(l, p) in l.chunks && l.chunks[EndOf(l, p)].used
  {
    assert Fenced(l, p);
  }

  lemma SmallMember(l: Layout, m: Memory, smallmap: bv32, treemap: bv32, z: Bins, i: nat, j: nat)
    requires BinsOk(l, m, smallmap, treemap, z) && i < NBINS && 8 * i in z.rings && 0 < j < |z.rings[8 * i]|
    ensures FreeAt(l, z.rings[8 * i][j]) && l.chunks[z.rings[8 * i][j]].size == 8 * i
  {
    hide LinksOk, TreeShape, WordsOk, ChainsOk, MapsOk;
    assert OnRing(z, 8 * i, j);
  }

  /** What the words of the chunk at place j on the ring of the node at q say. */
  lemma ChainRead(l: Layout, m: Memory, smallmap: bv32, treemap: bv32, z: Bins, q: Pos, j: nat)
    requires LayoutOk(l) && BinsOk(l, m, smallmap, treemap, z) && q in z.tree && z.tree[q] in z.rings
    requires j < |z.rings[z.tree[q]]| && !IsSmall(z.tree[q])
    ensures var u := z.rings[z.tree[q]][j];
      FreeAt(l, u) && l.chunks[u].size == z.tree[q] && Get(m, Index(u)) == q.bin
      && (j > 0 ==> Get(m, Parent(u)) == 0 && Get(m, Child(u, 0)) == 0 && Get(m, Child(u, 1)) == 0)
  {
    hide LinksOk, MapsOk, WordsOk, Get, Live, LayoutOk, PosOk, IsSmall;
    assert OnRing(z, z.tree[q], j);
    assert NodeOk(z, z.tree[q]);
    if j == 0 {
      NodeHere(l, m, smallmap, treemap, z, q);
    } else {
      assert ChainedWords(m, z, z.tree[q], z.rings[z.tree[q]][j]);
    }
  }

  /** The parent word of a node leads to the slot or the node it hangs from, which leads back. */
  lemma ParentRead(l: Layout, m: Memory, smallmap: bv32, treemap: bv32, z: Bins, q: Pos)
    requires LayoutOk(l) && BinsOk(l, m, smallmap, treemap, z) && q in z.tree
    ensures var t := Front(z, z.tree[q]); var p := Get(m, Parent(t));
      p != 0 && p != t && (Get(m, Child(p, 0)) == t || Get(m, Child(p, 1)) == t || Load(m, p) == t)
  {
    NodeHere(l, m, smallmap, treemap, z, q);
    HasShape(l, m, smallmap, treemap, z);
    hide BinsOk, LayoutOk, Get, Seats, PosOk, Live, Front;
    if q.depth == 0 { RootParent(l, m, smallmap, treemap, z, q); } else { NodeParent(l, m, smallmap, treemap, z, q); }
  }

  lemma RootParent(l: Layout, m: Memory, smallmap: bv32, treemap: bv32, z: Bins, q: Pos)
    requires LayoutOk(l) && BinsOk(l, m, smallmap, treemap, z) && q in z.tree && q.depth == 0
    ensures var t := Front(z, z.tree[q]); var p := Get(m, Parent(t)); p != 0 && p != t && Load(m, p) == t
  {
    hide BinsOk, PosOk, Live, Front, TreeShape, Seats;
    HasShape(l, m, smallmap, treemap, z);
    AtRoot(z, q);
    NodeHere(l, m, smallmap, treemap, z, q);
    RootHere(l, m, smallmap, treemap, z, q.bin);
    assert ChunkOk(l, Front(z, z.tree[q]));
    hide Seats;
  }

  lemma NodeParent(l: Layout, m: Memory, smallmap: bv32, treemap: bv32, z: Bins, q: Pos)
    requires LayoutOk(l) && BinsOk(l, m, smallmap, treemap, z) && TreeShape(z) && q in z.tree && q.depth > 0
    ensures var t := Front(z, z.tree[q]); var p := Get(m, Parent(t));
      && p != 0 && p != t && (Get(m, Child(p, 0)) == t || Get(m, Child(p, 1)) == t)
  {
    var p := Up(q);
    assert p in z.tree && p != q;
    DownUp(q);
    hide *;
    ParentIsUp(l, m, smallmap, treemap, z, q);
    ChildHere(l, m, smallmap, treemap, z, p, q.pre % 2);
    TwoSeats(l, m, smallmap, treemap, z, q, p);
  }

  lemma ParentIsUp(l: Layout, m: Memory, smallmap: bv32, treemap: bv32, z: Bins, q: Pos)
    requires LayoutOk(l) && BinsOk(l, m, smallmap, treemap, z) && q in z.tree && q.depth > 0 && Up(q) in z.tree
    ensures Get(m, Parent(Front(z, z.tree[q]))) == Front(z, z.tree[Up(q)]) && Front(z, z.tree[Up(q)]) != 0
  {
    hide BinsOk, LayoutOk, Get, PosOk, Live, Front, Seats;
    NodeHere(l, m, smallmap, treemap, z, q);
  }

  lemma AtRoot(z: Bins, q: Pos)
    requires TreeShape(z) && q in z.tree && q.depth == 0
    ensures q == RootPos(q.bin) && q.bin < NTREEBINS
  {
    assert NodeOk(z, z.tree[q]);
    TreeIndexInBin(z.tree[q]);
    RootPreOfBin(q.bin, z.tree[q]);
  }

  lemma TwoSeats(l: Layout, m: Memory, smallmap: bv32, treemap: bv32, z: Bins, p: Pos, q: Pos)
    requires LayoutOk(l) && BinsOk(l, m, smallmap, treemap, z) && p in z.tree && q in z.tree && p != q
    ensures Front(z, z.tree[p]) != Front(z, z.tree[q])
  {
    hide PosOk, LinksOk, WordsOk, ChainsOk, MapsOk, TreeShape, RingsOk, LayoutOk;
    SeatsOk(l, z);
    SeatsKeys(z);
    hide Front;
  }

  /** The smaller sizes are on the left. */
  lemma SidesOrdered(z: Bins, q: Pos)
    requires TreeShape(z) && Down(q, 0) in z.tree && Down(q, 1) in z.tree && q.depth < Width(q.bin)
    ensures z.tree[Down(q, 0)] < z.tree[Down(q, 1)]
  {
    assert NodeOk(z, z.tree[Down(q, 0)]) && NodeOk(z, z.tree[Down(q, 1)]);
    PreOrder(q.bin, z.tree[Down(q, 0)], z.tree[Down(q, 1)], q.depth + 1);
  }

  /** The size of a node fits its bin, and its index says so. */
  lemma NodeBin(l: Layout, m: Memory, smallmap: bv32, treemap: bv32, z: Bins, q: Pos)
    requires BinsOk(l, m, smallmap, treemap, z) && q in z.tree
    ensures var s := z.tree[q];
      && TreeIndex(s) == q.bin && s >= MIN_LARGE && MinSize(q.bin) <= s
      && (q.bin == NTREEBINS - 1 || s < MinSize(q.bin + 1))
  {
    hide LinksOk, WordsOk, ChainsOk, MapsOk, RingsOk;
    assert NodeOk(z, z.tree[q]);
    TreeIndexInBin(z.tree[q]);
  }

  /** A child of the node at q: linked back, elsewhere, and in place. */
  lemma ChildRead(l: Layout, m: Memory, smallmap: bv32, treemap: bv32, z: Bins, q: Pos, b: nat)
    requires LayoutOk(l) && BinsOk(l, m, smallmap, treemap, z) && q in z.tree && b < 2
    ensures var t := Front(z, z.tree[q]); var c := Get(m, Child(t, b));
      c != 0 ==>
        && Down(q, b) in z.tree && c == Front(z, z.tree[Down(q, b)]) && Get(m, Parent(c)) == t && c != t
        && q.depth < Width(q.bin)
  {
    ChildHere(l, m, smallmap, treemap, z, q, b);
    if Down(q, b) in z.tree {
      UpDown(q, b);
      NodeHere(l, m, smallmap, treemap, z, q);
      NodeHere(l, m, smallmap, treemap, z, Down(q, b));
      TwoSeats(l, m, smallmap, treemap, z, q, Down(q, b));
    }
    hide BinsOk, LayoutOk, Get, Seats, TreeShape;
  }

  /** Checks a node, goes round its ring and down its subtrees. */
  method CheckTree(h: Heap, t: nat, ghost q: Pos) returns (ok: bool)
    requires h.Ready() && q in h.z.tree && t == Front(h.z, h.z.tree[q]) && q.depth <= Width(q.bin)
    ensures ok
    decreases Width(q.bin) - q.depth, 3
  {
    hide RowOk, BinsOk;
    NodeBinPasses(h, t, q);
    ok := NodeBinChecks(h, t);
    var tindex, tsize := Get(h.mem, Index(t)), ChunkSize(Get(h.mem, Head(t)));
    hide NodeBinChecks, Get, ChunkSize, Front;
    RingOfNode(h.l, h.mem, h.smallmap, h.treemap, h.z, q);
    var c := CheckRing(h, t, tindex, tsize, q);
    ok := ok && c;
  }

  lemma RingOfNode(l: Layout, m: Memory, smallmap: bv32, treemap: bv32, z: Bins, q: Pos)
    requires RowOk(l, m) && BinsOk(l, m, smallmap, treemap, z) && q in z.tree
    ensures var s := z.tree[q];
      && s in z.rings && |z.rings[s]| > 0 && z.rings[s][0] == Front(z, s) && Front(z, s) != 0 && !IsSmall(s)
  {
    NodeHere(l, m, smallmap, treemap, z, q);
  }

  method CheckRing(h: Heap, t: nat, tindex: nat, tsize: nat, ghost q: Pos) returns (ok: bool)
    requires h.Ready() && q in h.z.tree && t == Front(h.z, tsize) && q.depth <= Width(q.bin) && tindex == q.bin
    requires tsize == h.z.tree[q]
    requires tsize in h.z.rings && |h.z.rings[tsize]| > 0 && h.z.rings[tsize][0] == t && t != 0 && !IsSmall(tsize)
    ensures ok
    decreases Width(q.bin) - q.depth, 2
  {
    ghost var r := h.z.rings[tsize];
    hide RowOk, BinsOk, Get, Live, Binnable, AllBinCellsLive, DvOk, IsSmall, Front;
    ok := true;
    var head, u, first := 0, t, true;
    ghost var j := 0;
    while first || u != t
      invariant 0 <= j <= |r| && ok && u == (if j < |r| then r[j] else t) && (first <==> j == 0)
      invariant head == (if j == 0 then 0 else t)
      decreases |r| - j
    {
      first := false;
      var c;
      c, head := CheckRingMember(h, u, tindex, tsize, head, q, j);
      ok := ok && c;
      RingNeighbours(h.l, h.mem, h.smallmap, h.treemap, h.z, tsize, j);
      u, j := Get(h.mem, Fd(u)), j + 1;
    }
    ok := ok && head != 0;
  }

  /** The size of a node fits the bin its index names. */
  predicate NodeBinChecks(h: Heap, t: nat)
    reads h
  {
    var tsize := ChunkSize(Get(h.mem, Head(t)));
    var idx := TreeIndex(tsize);
    && Get(h.mem, Index(t)) == idx && tsize >= MIN_LARGE && tsize >= MinSize(idx)
    && (idx == NTREEBINS - 1 || tsize < MinSize(idx + 1))
  }

  lemma NodeBinPasses(h: Heap, t: nat, q: Pos)
    requires h.Ready() && q in h.z.tree && t == Front(h.z, h.z.tree[q])
    ensures NodeBinChecks(h, t) && Get(h.mem, Index(t)) == q.bin && ChunkSize(Get(h.mem, Head(t))) == h.z.tree[q]
  {
    var l, m, z := h.l, h.mem, h.z;
    hide RowOk, BinsOk, Get, Live, TreeIndex, MinSize, Seats, PosOk, Front, ChunkSize, DvOk, Binnable, SeatValues;
    RowLayout(l, m);
    hide *;
    NodeIndex(l, m, h.smallmap, h.treemap, z, q);
    NodeBin(l, m, h.smallmap, h.treemap, z, q);
    SizeInHead(l, m, t);
    assert NodeBinChecks(h, t) by { NodeBinFits(h, t, q.bin, z.tree[q]); }
  }

  lemma NodeBinFits(h: Heap, t: nat, i: nat, s: nat)
    requires Get(h.mem, Index(t)) == i && ChunkSize(Get(h.mem, Head(t))) == s
    requires TreeIndex(s) == i && s >= MIN_LARGE && MinSize(i) <= s && (i == NTREEBINS - 1 || s < MinSize(i + 1))
    ensures NodeBinChecks(h, t)
  {
    hide TreeIndex, MinSize, ChunkSize, Get;
  }

  lemma NodeIndex(l: Layout, m: Memory, smallmap: bv32, treemap: bv32, z: Bins, q: Pos)
    requires LayoutOk(l) && BinsOk(l, m, smallmap, treemap, z) && q in z.tree
    ensures var t := Front(z, z.tree[q]); Get(m, Index(t)) == q.bin && t in l.chunks && l.chunks[t].size == z.tree[q]
  {
    NodeHere(l, m, smallmap, treemap, z, q);
    hide BinsOk, LayoutOk, Get, Live, Seats, PosOk, Front;
  }

  /** One chunk on the ring of a node; the one with a parent is the node, and there is no second one. */
  method CheckRingMember(h: Heap, u: nat, tindex: nat, tsize: nat, head: nat, ghost q: Pos, ghost j: nat)
    returns (ok: bool, head': nat)
    requires h.Ready() && q in h.z.tree && h.z.tree[q] in h.z.rings && !IsSmall(h.z.tree[q])
    requires j < |h.z.rings[h.z.tree[q]]|
    requires u == h.z.rings[h.z.tree[q]][j] && tindex == q.bin && tsize == h.z.tree[q] && q.depth <= Width(q.bin)
    requires head == if j == 0 then 0 else Front(h.z, h.z.tree[q])
    ensures ok && head' == Front(h.z, h.z.tree[q])
    decreases Width(q.bin) - q.depth, 1
  {
    ghost var l, m, z := h.l, h.mem, h.z;
    RowLayout(l, m);
    hide RowOk, BinsOk, Get, LayoutOk, TagsOk, NoAdjacentFree, Live;
    head' := head;
    RingChunkPasses(h, u, q, j);
    ok := RingChunkChecks(h, u, tindex, tsize);
    hide RingChunkChecks;
    ChainRead(l, m, h.smallmap, h.treemap, z, q, j);
    ParentRead(l, m, h.smallmap, h.treemap, z, q);
    if Get(h.mem, Parent(u)) == 0 {
      ok := ok && Get(h.mem, Child(u, 0)) == 0 && Get(h.mem, Child(u, 1)) == 0;
    } else {
      var c := CheckChildren(h, u, q);
      ok := ok && head == 0 && c;
      head' := u;
    }
  }

  /** A chunk on the ring of a node: free, of the node's size and index, with links that lead back to it. */
  predicate RingChunkChecks(h: Heap, u: nat, tindex: nat, tsize: nat)
    reads h
  {
    var hd := Get(h.mem, Head(u));
    && AnyChunkChecks(h, u)
    && Get(h.mem, Index(u)) == tindex && ChunkSize(hd) == tsize && !IsInuse(hd) && !NextPinuse(h.mem, u)
    && Get(h.mem, Bk(Get(h.mem, Fd(u)))) == u && Get(h.mem, Fd(Get(h.mem, Bk(u)))) == u
  }

  lemma RingChunkPasses(h: Heap, u: nat, q: Pos, j: nat)
    requires h.Ready() && q in h.z.tree && h.z.tree[q] in h.z.rings && !IsSmall(h.z.tree[q])
    requires j < |h.z.rings[h.z.tree[q]]|
    requires u == h.z.rings[h.z.tree[q]][j]
    ensures RingChunkChecks(h, u, q.bin, h.z.tree[q])
  {
    var l, m, z := h.l, h.mem, h.z;
    hide RowOk, BinsOk, Get, Live, Binnable, ChunkSize, DvOk, IsInuse, NextPinuse, AnyChunkChecks;
    RowLayout(l, m);
    hide LayoutOk, TagsOk, NoAdjacentFree;
    ChainRead(l, m, h.smallmap, h.treemap, z, q, j);
    FreeHead(l, m, u);
    RingLinks(l, m, h.smallmap, h.treemap, z, z.tree[q], j);
    AnyChunkPasses(h, u);
  }

  /** What the tags around a free chunk say. */
  lemma FreeHead(l: Layout, m: Memory, u: nat)
    requires RowOk(l, m) && FreeAt(l, u)
    ensures var hd := Get(m, Head(u));
      && ChunkSize(hd) == l.chunks[u].size && !IsInuse(hd) && !IsMmapped(hd) && Pinuse(hd) && !NextPinuse(m, u)
      && u % 16 == 0
  {
    ReadChunk(l, m, u);
    ReadNext(l, m, u);
    PinuseOfFree(l, m, u);
    HeadBits(Get(m, Head(u)));
    hide LayoutOk, TagsOk, NoAdjacentFree, Get, ChunkSize, Cinuse, Pinuse, Live;
  }

  lemma RingLinks(l: Layout, m: Memory, smallmap: bv32, treemap: bv32, z: Bins, s: nat, j: nat)
    requires BinsOk(l, m, smallmap, treemap, z) && s in z.rings && j < |z.rings[s]| && (|z.rings[s]| > 1 || !IsSmall(s))
    ensures var u := z.rings[s][j]; Get(m, Bk(Get(m, Fd(u)))) == u && Get(m, Fd(Get(m, Bk(u)))) == u
  {
    hide BinsOk, Get, Live, AllBinCellsLive;
    RingNeighbours(l, m, smallmap, treemap, z, s, j);
  }

  /** The links of a node to its parent and to its children, and the subtrees. */
  method CheckChildren(h: Heap, u: nat, ghost q: Pos) returns (ok: bool)
    requires h.Ready() && q in h.z.tree && u == Front(h.z, h.z.tree[q]) && q.depth <= Width(q.bin)
    ensures ok
    decreases Width(q.bin) - q.depth, 0
  {
    ghost var l, m, z := h.l, h.mem, h.z;
    RowLayout(l, m);
    hide RowOk, BinsOk, Get, LayoutOk, TagsOk, NoAdjacentFree, Live, Binnable, Cinuse, Pinuse, ChunkSize, Front, Load;
    ParentRead(l, m, h.smallmap, h.treemap, z, q);
    ChildRead(l, m, h.smallmap, h.treemap, z, q, 0);
    ChildRead(l, m, h.smallmap, h.treemap, z, q, 1);
    HasShape(l, m, h.smallmap, h.treemap, z);
    var parent := Get(h.mem, Parent(u));
    ok := parent != u
      && (Get(h.mem, Child(parent, 0)) == u || Get(h.mem, Child(parent, 1)) == u || Load(h.mem, parent) == u);
    var left, right := Get(h.mem, Child(u, 0)), Get(h.mem, Child(u, 1));
    var c;
    if left != 0 {
      ok := ok && Get(h.mem, Parent(left)) == u && left != u;
      c := CheckTree(h, left, Down(q, 0));
      ok := ok && c;
    }
    if right != 0 {
      ok := ok && Get(h.mem, Parent(right)) == u && right != u;
      c := CheckTree(h, right, Down(q, 1));
      ok := ok && c;
    }
    if left != 0 && right != 0 {
      SizeRead(l, m, h.smallmap, h.treemap, z, Down(q, 0));
      SizeRead(l, m, h.smallmap, h.treemap, z, Down(q, 1));
      SidesOrdered(z, q);
      ok := ok && ChunkSize(Get(h.mem, Head(left))) < ChunkSize(Get(h.mem, Head(right)));
    }
  }

  lemma SizeRead(l: Layout, m: Memory, smallmap: bv32, treemap: bv32, z: Bins, q: Pos)
    requires RowOk(l, m) && BinsOk(l, m, smallmap, treemap, z) && q in z.tree
    ensures ChunkSize(Get(m, Head(Front(z, z.tree[q])))) == z.tree[q]
  {
    See(l, m, smallmap, treemap, z, q);
  }

  method CheckTreebin(h: Heap, i: nat) returns (ok: bool)
    requires i < NTREEBINS && (h.Ready() || !Marked(h.treemap, i))
    ensures ok
  {
    if h.Ready() {
      SeeRoot(h.l, h.mem, h.smallmap, h.treemap, h.z, i);
    }
    hide BinsOk, RowOk, Get, Marked;
    var t := Get(h.mem, Root(i));
    var empty := !Marked(h.treemap, i);
    ok := t == 0 ==> empty;
    if !empty {
      var c := CheckTree(h, t, RootPos(i));
      ok := ok && c;
    }
  }

  lemma TopUnbinned(l: Layout, dv: nat)
    requires LayoutOk(l)
    ensures l.top !in Binnable(l, dv)
  {
    TopNotChunk(l);
  }

  /** The designated victim and top: sizes as recorded, and neither in a bin. */
  method CheckVictimAndTop(h: Heap) returns (ok: bool)
    requires h.Ready()
    ensures ok
  {
    RowLayout(h.l, h.mem);
    TopRead(h.l, h.mem);
    TopUnbinned(h.l, h.dv);
    hide BinsOk, RowOk, Get, Live, LayoutOk, TagsOk, NoAdjacentFree, Pinuse, AnyChunkChecks, TopChunkChecks;
    ok := true;
    if h.dvsize != 0 {
      ReadChunk(h.l, h.mem, h.dv);
      AnyChunkPasses(h, h.dv);
      var found := BinFind(h, h.dv);
      ok := ok && AnyChunkChecks(h, h.dv) && h.dvsize == ChunkSize(Get(h.mem, Head(h.dv))) && h.dvsize >= MIN_CHUNK
        && !found;
    }
    if h.top != 0 {
      TopChunkPasses(h);
      var found := BinFind(h, h.top);
      ok := ok && TopChunkChecks(h, h.top) && h.topsize > 0 && !found;
    }
  }

  /** All the checks on a heap: none of them fails, and the total is the footprint. */
  method CheckMallocState(h: Heap) returns (ok: bool, total: nat)
    requires h.Valid()
    ensures ok && total == h.footprint
  {
    NoMarks(h);
    hide BinsOk, RowOk, Get, Live, Marked;
    ok := true;
    for i := 0 to NBINS
      invariant ok
    {
      var c := CheckSmallbin(h, i);
      ok := ok && c;
    }
    for i := 0 to NTREEBINS
      invariant ok
    {
      var c := CheckTreebin(h, i);
      ok := ok && c;
    }
    if h.top != 0 {
      var c := CheckVictimAndTop(h);
      ok := ok && c;
    }
    var c;
    c, total := TraverseAndCheck(h);
    ok := ok && c && total <= h.footprint && h.footprint <= h.maxFootprint;
  }

  /** A heap not yet used has no bin marked. */
  lemma NoMarks(h: Heap)
    requires h.Valid()
    ensures h.Ready() || forall i :: 0 <= i < 32 ==> !Marked(h.smallmap, i) && !Marked(h.treemap, i)
  {
    if h.top == 0 {
      forall i | 0 <= i < 32 ensures !Marked(0, i) { NothingMarked(i); }
    }
  }
}
