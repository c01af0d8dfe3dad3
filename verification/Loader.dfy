/**
 * Loading an executable into an address space: map, copy, clear, set flags.
 */
module Loader {
  import opened Basics
  import opened Words
  import opened PageTables
  import opened PageWorld
  import opened PageRange
  import opened PageSteps
  import opened PageOwed
  import opened PageLedger
  import opened PageBooks
  import opened PageRoots
  import opened Paging
  import opened UserSpace

  const STACK_TOP: nat := 0x8000_0000
  const TASK_STATE_VALID: nat := 1
  const PT_LOAD: nat := 1

  // ----- one page

  /** kmem_map of a new page. */
  method MapNewPage(pager: Pager, root: nat, v: nat, ghost d: Space, ghost m0: Memory, ghost w0: World)
    returns (ghost d': Space)
    requires pager.Tables() && SpaceOk(pager.mem, pager.w, root, d) && Journey(m0, w0, pager.mem, pager.w, root, d)
    requires v !in d && v % PAGE == 0 && v + PAGE <= SPAN && Own(w0, root, v) && |pager.w.free| >= 4
    modifies pager`mem, pager`lastUnused, pager`w
    ensures pager.Tables() && SpaceOk(pager.mem, pager.w, root, d') && Journey(m0, w0, pager.mem, pager.w, root, d')
    ensures d'.Keys == d.Keys + {v} && d'[v].flags == MAP_DATA && Kept(old(pager.mem), d, pager.mem, d')
    ensures |pager.w.free| + 4 >= |old(pager.w).free|
  {
    hide WorldOk, SpaceOk, Journey, Loose, Own, MappedBut, OnlyIn, Reach, At, Extends, Pages, BytesKept, Kept,
      TablesBuilt, TabsOk;
    ghost var m, last, w := pager.mem, pager.lastUnused, pager.w;
    var page := pager.KmemGetPage();
    ghost var w1 := pager.w;
    NewPagePlain(m, w1, page);
    JourneyOwn(m0, w0, m, w, root, d, v);
    SameForeign(w, w1, root, v);
    pager.KmemMap(root, v, page, MAP_DATA);
    PageAdded(m, w, w1, pager.mem, pager.w, root, v, page, d);
    d' := d[v := Backing(page, MAP_DATA)];
    TabsFine(m, last, w);
    TabsFine(pager.mem, pager.lastUnused, pager.w);
    MapStep(m0, w0, m, w, w1, pager.mem, pager.w, root, v, page, d);
    KeptBytes(m, pager.mem, d, v, Backing(page, MAP_DATA));
  }

  lemma NewPagePlain(m: Memory, w: World, page: nat)
    requires Loose(m, w, page)
    ensures IsPage(page) && IsFlags(MAP_DATA)
  {}

  lemma JourneyOwn(m0: Memory, w0: World, m: Memory, w: World, root: nat, d: Space, v: nat)
    requires Journey(m0, w0, m, w, root, d) && Own(w0, root, v)
    ensures Own(w, root, v)
  {
    hide At;
  }

  lemma SameForeign(w: World, w1: World, root: nat, v: nat)
    requires Own(w, root, v) && w1.tabs == w.tabs && w1.foreign == w.foreign
    ensures Own(w1, root, v)
  {
    hide At;
  }

  lemma MapStep(m0: Memory, w0: World, m: Memory, w: World, w1: World, m': Memory, w': World, root: nat, v: nat,
                page: nat, d: Space)
    requires Journey(m0, w0, m, w, root, d) && |w.free| > 0 && w1 == Popped(w) && Extends(w1, w')
    requires OnlyIn(m, m', Reach(w1)) && TablesBuilt(m, w1, m', w') && TabsOk(w) && TabsOk(w')
    requires MappedBut(m, w1, m', w', At(root, v, 4), page + MAP_DATA)
    requires Reach(w') + Pages(d[v := Backing(page, MAP_DATA)]) <= Reach(w) + Pages(d)
    ensures Journey(m0, w0, m', w', root, d[v := Backing(page, MAP_DATA)])
  {
    hide TablesBuilt, TabsOk;
    var e, q, d' := page + MAP_DATA, At(root, v, 4), d[v := Backing(page, MAP_DATA)];
    assert MappedBut(m, w, m', w', q, e) by {
      hide At;
      forall x | EntryPos(x)
        ensures Mapped(m', w', x) == if x == q then (if Present(e) then Some(e) else None) else Mapped(m, w, x)
      {
        SameTabsMaps(m, w, w1, x);
      }
    }
    assert Reach(w1) <= Reach(w) by { assert forall f :: f in w1.free ==> f in w.free; }
    assert w'.foreign == w.foreign;
    BuiltPopped(m, w, w1, m', w');
    hide Journey, TablesBuilt, TabsOk, MappedBut, OnlyIn, Reach, Pages, Extends, At;
    JourneyMap(m0, w0, m, w, m', w', root, v, e, d, d', Reach(w1));
  }

  lemma BuiltPopped(m: Memory, w: World, w1: World, m': Memory, w': World)
    requires w1.tabs == w.tabs && TablesBuilt(m, w1, m', w')
    ensures TablesBuilt(m, w, m', w')
  {
    hide Down, Up, Load;
    forall p, j: nat | p in w.tabs && |p.path| < 3 && j < 512 && (Down(p, j) in w.tabs || Down(p, j) !in w'.tabs)
      ensures Word(m', w', p, j) == Word(m, w, p, j)
    {
      assert Word(m', w', p, j) == Word(m, w1, p, j);
    }
  }

  lemma KeptBytes(m: Memory, m': Memory, d: Space, v: nat, b: Backing)
    requires BytesKept(m, m', d) && v !in d
    ensures Kept(m, d, m', d[v := b]) && d[v := b].Keys == d.Keys + {v}
  {
    var d' := d[v := b];
    forall a: nat | Floor(a) in d ensures UserByte(m', d', a) == UserByte(m, d, a) {
      assert UserByte(m', d, a) == UserByte(m, d, a);
    }
  }

  /** kmem_set_flags on a page of the space. */
  method ReflagPage(pager: Pager, root: nat, v: nat, flags: nat, ghost d: Space, ghost m0: Memory, ghost w0: World)
    returns (ghost d': Space)
    requires pager.Tables() && SpaceOk(pager.mem, pager.w, root, d) && Journey(m0, w0, pager.mem, pager.w, root, d)
    requires v in d && IsFlags(flags) && Present(flags)
    modifies pager`mem, pager`lastUnused, pager`w
    ensures pager.Tables() && SpaceOk(pager.mem, pager.w, root, d') && Journey(m0, w0, pager.mem, pager.w, root, d')
    ensures d' == d[v := Backing(d[v].page, flags)] && BytesKept(old(pager.mem), pager.mem, d)
    ensures pager.w == old(pager.w)
  {
    hide WorldOk, SpaceOk, Journey, Own, MappedBut, OnlyIn, Reach, At, Extends, Pages, BytesKept, Mapped, TablesBuilt,
      TabsOk;
    ghost var m, w := pager.mem, pager.w;
    TabsFine(m, pager.lastUnused, w);
    BackedAt(m, w, root, d, v);
    BackedWalk(m, pager.lastUnused, w, root, v, d);
    ghost var e := pager.KmemSetFlags(root, v, flags);
    d' := d[v := Backing(d[v].page, flags)];
    PageReflagged(m, w, pager.mem, pager.w, root, v, flags, e, d);
    ExtendsParts(w, pager.w);
    TabsFine(pager.mem, pager.lastUnused, pager.w);
    assert d'.Keys == d.Keys;
    JourneyMap(m0, w0, m, w, pager.mem, pager.w, root, v, e, d, d', Reach(w));
  }

  lemma BackedAt(m: Memory, w: World, root: nat, d: Space, v: nat)
    requires SpaceOk(m, w, root, d) && v in d
    ensures Mapped(m, w, At(root, v, 4)) == Some(d[v].page + d[v].flags) && Own(w, root, v)
  {
    assert Backed(m, w, root, v, d[v]);
    hide At, Mapped;
  }

  lemma ExtendsParts(w: World, w': World)
    requires Extends(w, w')
    ensures w'.foreign == w.foreign && forall p :: p in w.tabs ==> p in w'.tabs
  {}

  // ----- bytes

  /** The walk for a page finds the page of the space behind it, or no table at all. */
  ghost predicate Walkable(w: World, root: nat, d: Space, v: nat) {
    v in d || (Own(w, root, v) && At(root, v, 3) !in w.tabs)
  }

  lemma WalkFinds(m: Memory, last: nat, w: World, root: nat, d: Space, v: nat)
    requires WorldOk(m, last, w) && SpaceOk(m, w, root, d) && Walkable(w, root, d, v)
    ensures PagingAddr(m, root, v, 3).Some? <==> v in d
    ensures v in d ==>
      && PageOf(Load(m, PagingAddr(m, root, v, 3).value)) == d[v].page && d[v].page % PAGE == 0 && d[v].page in Pages(d)
  {
    hide WorldOk, SpaceOk, Own, At;
    if v in d { BackedWalk(m, last, w, root, v, d); } else { WalkTellsOk(m, last, w, root, v, 3); }
  }

  /**
   * Copies to a range of virtual addresses, a page at a time, up to the first page without a table. count says how
   * many bytes that was: all of them if every page is there.
   */
  method KmemMemcpy(pager: Pager, root: nat, dest: nat, src: nat, bytes: nat, ghost d: Space) returns (ghost count: nat)
    requires pager.Tables() && SpaceOk(pager.mem, pager.w, root, d)
    requires forall a: nat {:trigger Floor(a)} :: dest <= a < dest + bytes ==> Walkable(pager.w, root, d, Floor(a))
    requires forall s: nat {:trigger Floor(s)} :: src <= s < src + bytes ==> Floor(s) !in Pages(d)
    modifies pager`mem
    ensures pager.Tables() && SpaceOk(pager.mem, pager.w, root, d) && OnlyIn(old(pager.mem), pager.mem, Pages(d))
    ensures MapsKept(old(pager.mem), pager.w, pager.mem, pager.w)
    ensures count <= bytes && (count < bytes ==> Floor(dest + count) !in d)
    ensures Filled(old(pager.mem), pager.mem, d, dest, src, count)
  {
    hide WorldOk, SpaceOk, OnlyIn, Pages, MapsKept, Filled, Copied, OnlyWords, Walkable, PageOf;
    ghost var m0 := pager.mem;
    var vaddr, data, size := dest, src, bytes;
    count := 0;
    NothingYet(m0, pager.w, d, dest, src);
    while size > 0
      invariant size >= 0 && size + count == bytes && vaddr == dest + count && data == src + count
      invariant pager.Tables() && SpaceOk(pager.mem, pager.w, root, d) && OnlyIn(m0, pager.mem, Pages(d))
      invariant MapsKept(m0, pager.w, pager.mem, pager.w)
      invariant forall a: nat {:trigger Floor(a)} ::
        dest + count <= a < dest + bytes ==> Walkable(pager.w, root, d, Floor(a))
      invariant Filled(m0, pager.mem, d, dest, src, count)
    {
      var pg, off := vaddr - vaddr % PAGE, vaddr % PAGE;
      FloorFacts(vaddr);
      assert Floor(vaddr) == pg && Walkable(pager.w, root, d, Floor(vaddr));
      var entry := PagingAddr(pager.mem, root, pg, 3);
      WalkFinds(pager.mem, pager.lastUnused, pager.w, root, d, pg);
      if entry.None? {
        return;
      }
      var page := PageOf(Load(pager.mem, entry.value));
      var wsize := if size < PAGE - off then size else PAGE - off;
      ghost var m := pager.mem;
      pager.mem := MemMove(pager.mem, page + off, data, wsize);
      CopyStep(m0, m, pager.mem, pager.lastUnused, pager.w, root, d, dest, src, count, wsize);
      count := count + wsize;
      vaddr, data, size := vaddr + wsize, data + wsize, size - wsize;
    }
  }

  /** Clears a range of virtual addresses in the same way. */
  method KmemMemclr(pager: Pager, root: nat, dest: nat, bytes: nat, ghost d: Space) returns (ghost count: nat)
    requires pager.Tables() && SpaceOk(pager.mem, pager.w, root, d)
    requires forall a: nat {:trigger Floor(a)} :: dest <= a < dest + bytes ==> Walkable(pager.w, root, d, Floor(a))
    modifies pager`mem
    ensures pager.Tables() && SpaceOk(pager.mem, pager.w, root, d) && OnlyIn(old(pager.mem), pager.mem, Pages(d))
    ensures MapsKept(old(pager.mem), pager.w, pager.mem, pager.w)
    ensures count <= bytes && (count < bytes ==> Floor(dest + count) !in d)
    ensures Cleared(old(pager.mem), pager.mem, d, dest, count)
  {
    hide WorldOk, SpaceOk, OnlyIn, Pages, MapsKept, Cleared, OnlyWords, Walkable, PageOf;
    ghost var m0 := pager.mem;
    var vaddr, size := dest, bytes;
    count := 0;
    NothingYet(m0, pager.w, d, dest, 0);
    while size > 0
      invariant size >= 0 && size + count == bytes && vaddr == dest + count
      invariant pager.Tables() && SpaceOk(pager.mem, pager.w, root, d) && OnlyIn(m0, pager.mem, Pages(d))
      invariant MapsKept(m0, pager.w, pager.mem, pager.w)
      invariant Cleared(m0, pager.mem, d, dest, count)
    {
      var pg, off := vaddr - vaddr % PAGE, vaddr % PAGE;
      FloorFacts(vaddr);
      assert Floor(vaddr) == pg && Walkable(pager.w, root, d, Floor(vaddr));
      WalkFinds(pager.mem, pager.lastUnused, pager.w, root, d, pg);
      var entry := PagingAddr(pager.mem, root, pg, 3);
      if entry.None? {
        return;
      }
      var page := PageOf(Load(pager.mem, entry.value));
      var wsize := if size < PAGE - off then size else PAGE - off;
      ghost var m := pager.mem;
      pager.mem := MemSet(pager.mem, page + off, 0, wsize);
      ClearStep(m0, m, pager.mem, pager.lastUnused, pager.w, root, d, dest, count, wsize);
      count := count + wsize;
      vaddr, size := vaddr + wsize, size - wsize;
    }
  }

  lemma ClearStep(m0: Memory, m: Memory, m': Memory, last: nat, w: World, root: nat, d: Space, dest: nat, done: nat,
                  count: nat)
    requires WorldOk(m, last, w) && SpaceOk(m, w, root, d) && OnlyIn(m0, m, Pages(d)) && MapsKept(m0, w, m, w)
    requires Cleared(m0, m, d, dest, done)
    requires Floor(dest + done) in d && (dest + done) % PAGE + count <= PAGE
    requires d[Floor(dest + done)].page % PAGE == 0 && d[Floor(dest + done)].page in Pages(d)
    requires forall c: nat {:trigger ByteAt(m', c)} :: var to := d[Floor(dest + done)].page + (dest + done) % PAGE;
      ByteAt(m', c) == if to <= c < to + count then 0 else ByteAt(m, c)
    requires OnlyWords(m, m', d[Floor(dest + done)].page + (dest + done) % PAGE, count)
    ensures WorldOk(m', last, w) && SpaceOk(m', w, root, d) && OnlyIn(m0, m', Pages(d)) && MapsKept(m0, w, m', w)
    ensures Cleared(m0, m', d, dest, done + count)
  {
    var v := Floor(dest + done);
    hide WorldOk, SpaceOk, OnlyIn, Pages, MapsKept, Cleared, OnlyWords, Floor, ByteAt, Floor;
    OnlyPage(m, m', d[v].page, (dest + done) % PAGE, count);
    PageWritten(m, m', last, w, root, v, d);
    ClearPiece(m0, m, m', w, root, d, dest, done, count);
    OnlyInMore(m0, m, m', Pages(d), {d[v].page});
    MapsTwice(m0, w, m, w, m', w);
  }

  lemma NothingYet(m: Memory, w: World, d: Space, dest: nat, src: nat)
    ensures Filled(m, m, d, dest, src, 0) && Cleared(m, m, d, dest, 0) && OnlyIn(m, m, Pages(d)) && MapsKept(m, w, m, w)
  {}

  /** All that one piece of a copy keeps and does. */
  lemma CopyStep(m0: Memory, m: Memory, m': Memory, last: nat, w: World, root: nat, d: Space, dest: nat, src: nat,
                 done: nat, count: nat)
    requires WorldOk(m, last, w) && SpaceOk(m, w, root, d) && OnlyIn(m0, m, Pages(d)) && MapsKept(m0, w, m, w)
    requires Filled(m0, m, d, dest, src, done)
    requires Floor(dest + done) in d && (dest + done) % PAGE + count <= PAGE
    requires d[Floor(dest + done)].page % PAGE == 0 && d[Floor(dest + done)].page in Pages(d)
    requires Copied(m, m', d[Floor(dest + done)].page + (dest + done) % PAGE, src + done, count)
    requires OnlyWords(m, m', d[Floor(dest + done)].page + (dest + done) % PAGE, count)
    requires forall s: nat {:trigger Floor(s)} :: src <= s < src + done + count ==> Floor(s) !in Pages(d)
    ensures WorldOk(m', last, w) && SpaceOk(m', w, root, d) && OnlyIn(m0, m', Pages(d)) && MapsKept(m0, w, m', w)
    ensures Filled(m0, m', d, dest, src, done + count)
  {
    var v := Floor(dest + done);
    forall s: nat | src <= s < src + done + count ensures ByteAt(m, s) == ByteAt(m0, s) {
      assert Floor(s) !in Pages(d);
      SomeByteKept(m0, m, Pages(d), s);
      hide *;
    }
    hide WorldOk, SpaceOk, OnlyIn, Pages, MapsKept, Filled, Copied, OnlyWords, Floor, ByteAt, Floor;
    OnlyPage(m, m', d[v].page, (dest + done) % PAGE, count);
    PageWritten(m, m', last, w, root, v, d);
    CopyPiece(m0, m, m', w, root, d, dest, src, done, count);
    OnlyInMore(m0, m, m', Pages(d), {d[v].page});
    MapsTwice(m0, w, m, w, m', w);
  }

  // ----- ranges of pages

  predicate InRange(lo: int, hi: int, v: nat) {
    v % PAGE == 0 && lo <= v < hi
  }

  function NumPages(lo: nat, hi: nat): nat
    decreases hi - lo
  {
    if lo < hi then 1 + NumPages(lo + PAGE, hi) else 0
  }

  /** d' has the pages of d and those of the range, with these flags. */
  ghost predicate RangeAdded(d: Space, d': Space, lo: nat, hi: nat, flags: nat) {
    && (forall v {:trigger v in d'} :: v in d' <==> v in d || InRange(lo, hi, v))
    && (forall v {:trigger d'[v]} :: InRange(lo, hi, v) ==> v in d' && d'[v].flags == flags)
  }

  lemma KeptTwice(m: Memory, d: Space, m1: Memory, d1: Space, m': Memory, d': Space)
    requires Kept(m, d, m1, d1) && Kept(m1, d1, m', d')
    ensures Kept(m, d, m', d')
  {
    forall v | v in d ensures v in d' && d'[v] == d[v] { assert d1[v] == d[v]; }
    forall a: nat | Floor(a) in d ensures UserByte(m', d', a) == UserByte(m, d, a) {
      assert d1[Floor(a)] == d[Floor(a)];
      assert UserByte(m1, d1, a) == UserByte(m, d, a);
      hide UserByte, Floor;
    }
  }

  lemma KeptSame(m: Memory, d: Space)
    ensures Kept(m, d, m, d)
  {}

  /** Nothing of the range is there yet, and its walks are private. */
  ghost predicate Vacant(w0: World, root: nat, d: Space, lo: nat, hi: nat) {
    forall v: nat {:trigger InRange(lo, hi, v)} ::
      InRange(lo, hi, v) ==> v !in d && v + PAGE <= SPAN && Own(w0, root, v)
  }

  /** New pages for a range, upwards. */
  method MapRange(pager: Pager, root: nat, lo: nat, hi: nat, ghost d: Space, ghost m0: Memory, ghost w0: World)
    returns (ghost d': Space)
    requires pager.Tables() && SpaceOk(pager.mem, pager.w, root, d) && Journey(m0, w0, pager.mem, pager.w, root, d)
    requires lo % PAGE == 0 && Vacant(w0, root, d, lo, hi) && |pager.w.free| >= 4 * NumPages(lo, hi)
    modifies pager`mem, pager`lastUnused, pager`w
    ensures pager.Tables() && SpaceOk(pager.mem, pager.w, root, d') && Journey(m0, w0, pager.mem, pager.w, root, d')
    ensures RangeAdded(d, d', lo, hi, MAP_DATA) && Kept(old(pager.mem), d, pager.mem, d')
    ensures |pager.w.free| + 4 * NumPages(lo, hi) >= |old(pager.w).free|
  {
    hide WorldOk, SpaceOk, Journey, Own, Kept, Vacant, RangeAdded, NumPages;
    ghost var m := pager.mem;
    var start := lo;
    d' := d;
    KeptSame(m, d);
    RangeNone(d, lo, MAP_DATA);
    while start < hi
      invariant start % PAGE == 0 && lo <= start
      invariant pager.Tables() && SpaceOk(pager.mem, pager.w, root, d') && Journey(m0, w0, pager.mem, pager.w, root, d')
      invariant RangeAdded(d, d', lo, start, MAP_DATA) && Kept(m, d, pager.mem, d')
      invariant |pager.w.free| + 4 * NumPages(lo, hi) >= |old(pager.w).free| + 4 * NumPages(start, hi)
      invariant |pager.w.free| >= 4 * NumPages(start, hi) && (start > lo ==> start < hi + PAGE)
      decreases hi - start
    {
      NextNew(w0, root, d, d', lo, start, hi);
      OneLess(start, hi);
      ghost var m1, d1 := pager.mem, d';
      d' := MapNewPage(pager, root, start, d', m0, w0);
      KeptTwice(m, d, m1, d1, pager.mem, d');
      RangeMore(d, d1, d', lo, start, MAP_DATA, m1, pager.mem);
      start := start + PAGE;
    }
    RangeEnds(d, d', lo, start, hi, MAP_DATA);
  }

  lemma NextNew(w0: World, root: nat, d: Space, d': Space, lo: nat, start: nat, hi: nat)
    requires Vacant(w0, root, d, lo, hi) && RangeAdded(d, d', lo, start, MAP_DATA) && lo <= start < hi
    requires start % PAGE == 0
    ensures start !in d' && start + PAGE <= SPAN && Own(w0, root, start)
  {
    hide Own;
    assert InRange(lo, hi, start) && !InRange(lo, start, start);
  }

  lemma OneLess(start: nat, hi: nat)
    requires start < hi
    ensures NumPages(start, hi) == NumPages(start + PAGE, hi) + 1
  {}

  lemma RangeNone(d: Space, lo: nat, flags: nat)
    ensures RangeAdded(d, d, lo, lo, flags)
  {}

  lemma RangeMore(d: Space, d1: Space, d': Space, lo: nat, v: nat, flags: nat, m: Memory, m': Memory)
    requires RangeAdded(d, d1, lo, v, flags) && Kept(m, d1, m', d') && d'.Keys == d1.Keys + {v} && d'[v].flags == flags
    requires v % PAGE == 0 && lo <= v
    ensures RangeAdded(d, d', lo, v + PAGE, flags)
  {
    forall u: nat ensures InRange(lo, v + PAGE, u) <==> InRange(lo, v, u) || u == v {
      if u % PAGE == 0 && v < u { PageGap(v, u); }
    }
    hide Floor, UserByte;
    forall u | InRange(lo, v + PAGE, u) ensures u in d' && d'[u].flags == flags {
      if u != v { assert d1[u].flags == flags; }
    }
  }

  /** The loop stops at the first page at or beyond the end: no page of the range is left out. */
  lemma RangeEnds(d: Space, d': Space, lo: nat, start: nat, hi: nat, flags: nat)
    requires RangeAdded(d, d', lo, start, flags) && start % PAGE == 0 && lo <= start && hi <= start
    requires (start > lo ==> start < hi + PAGE)
    ensures RangeAdded(d, d', lo, hi, flags)
  {
    forall u: nat ensures InRange(lo, hi, u) <==> InRange(lo, start, u) {
      if InRange(lo, start, u) { PageGap(u, start); }
    }
  }

  // ----- the image

  /** A number of n bytes, low byte first. */
  function ReadLE(m: Memory, a: nat, n: nat): nat
    decreases n
  {
    if n == 0 then 0 else ByteAt(m, a) + 256 * ReadLE(m, a + 1, n - 1)
  }

  /** The fields of a program header the loader looks at. */
  datatype Phdr = Phdr(kind: nat, flags: nat, offset: nat, vaddr: nat, filesz: nat, memsz: nat)

  function PhdrAt(m: Memory, a: nat): Phdr {
    Phdr(ReadLE(m, a, 4), ReadLE(m, a + 4, 4), ReadLE(m, a + 8, 8), ReadLE(m, a + 16, 8), ReadLE(m, a + 32, 8),
      ReadLE(m, a + 40, 8))
  }

  function HeaderCount(m: Memory, image: nat): nat {
    ReadLE(m, image + 56, 2)
  }

  function Headers(m: Memory, image: nat): nat {
    image + ReadLE(m, image + 32, 8)
  }

  function Segment(m: Memory, image: nat, i: nat): Phdr {
    PhdrAt(m, Headers(m, image) + 56 * i)
  }

  function EntryPoint(m: Memory, image: nat): nat {
    ReadLE(m, image + 24, 8)
  }

  /** n bytes of a word from byte k on, low byte first. */
  function WordPart(w: nat, k: nat, n: nat): nat
    decreases n
  {
    if n == 0 then 0 else ByteOf(w, k) + 256 * WordPart(w, k + 1, n - 1)
  }

  function BytePower(n: nat): (p: nat)
    ensures p > 0
  {
    if n == 0 then 1 else 256 * BytePower(n - 1)
  }

  lemma {:induction false} ReadInWord(m: Memory, a: nat, k: nat, n: nat)
    requires a % 8 == 0 && k + n <= 8
    ensures ReadLE(m, a + k, n) == WordPart(Load(m, a), k, n)
    decreases n
  {
    if n > 0 {
      Mod8(a / 8, k);
      assert (a + k) % 8 == k;
      ReadInWord(m, a, k + 1, n - 1);
    }
  }

  lemma {:induction false} PartShifted(w: nat, k: nat, n: nat)
    ensures WordPart(w, k + 1, n) == WordPart(w / 256, k, n)
    decreases n
  {
    if n > 0 { PartShifted(w, k + 1, n - 1); }
  }

  lemma {:induction false} LowPart(w: nat, n: nat)
    ensures WordPart(w, 0, n) == w % BytePower(n)
    decreases n
  {
    if n > 0 {
      var q, p := w / 256, BytePower(n - 1);
      LowPart(q, n - 1);
      PartShifted(w, 0, n - 1);
      assert WordPart(w, 0, n) == w % 256 + 256 * (q % p);
      LongRemainder(w, p);
    }
  }

  lemma LongRemainder(w: nat, p: nat)
    requires p > 0
    ensures w % (256 * p) == w % 256 + 256 * (w / 256 % p)
  {
    var q, r := w / 256, w % 256;
    var c, d := q / p, q % p;
    assert q == p * c + d;
    assert 256 * (p * c) == 256 * p * c;
    Remainder(w, 256 * p, c, 256 * d + r);
  }

  /** A word of 64 bits, aligned. */
  ghost predicate WordAt(m: Memory, a: nat) {
    a % 8 == 0 && Load(m, a) < 0x1_0000_0000_0000_0000
  }

  /** A number of two, four or eight bytes at the start of a word, and one of four bytes in its upper half. */
  lemma NumbersInWord(m: Memory, a: nat)
    requires WordAt(m, a)
    ensures ReadLE(m, a, 8) == Load(m, a) && ReadLE(m, a, 4) == Load(m, a) % 0x1_0000_0000
    ensures ReadLE(m, a, 2) == Load(m, a) % 0x1_0000 && ReadLE(m, a + 4, 4) == Load(m, a) / 0x1_0000_0000
  {
    var w := Load(m, a);
    hide ReadLE, WordPart, Load, BytePower;
    ReadInWord(m, a, 0, 8);
    ReadInWord(m, a, 0, 4);
    ReadInWord(m, a, 0, 2);
    ReadInWord(m, a, 4, 4);
    Powers();
    LowPart(w, 8);
    LowPart(w, 4);
    LowPart(w, 2);
    UpperHalf(w);
  }

  lemma UpperHalf(w: nat)
    requires w < 0x1_0000_0000_0000_0000
    ensures WordPart(w, 4, 4) == w / 0x1_0000_0000
  {
    hide WordPart, BytePower;
    var x := w / 256 / 256 / 256;
    PartShifted(w, 3, 4);
    PartShifted(w / 256, 2, 4);
    PartShifted(w / 256 / 256, 1, 4);
    PartShifted(x, 0, 4);
    LowPart(x / 256, 4);
    Powers();
  }

  lemma Powers()
    ensures BytePower(2) == 0x1_0000 && BytePower(4) == 0x1_0000_0000 && BytePower(8) == 0x1_0000_0000_0000_0000
  {
    assert BytePower(3) == 0x100_0000 && BytePower(5) == 0x100_0000_0000;
    assert BytePower(6) == 0x1_0000_0000_0000 && BytePower(7) == 0x100_0000_0000_0000;
  }

  /**
   * The words of the file header: entry point, offset of the program headers, and their number in the low half-word.
   */
  lemma HeaderWords(m: Memory, image: nat, i: nat)
    requires WordAt(m, image + 24) && WordAt(m, image + 32) && WordAt(m, image + 56)
    ensures EntryPoint(m, image) == Load(m, image + 24) && Headers(m, image) == image + Load(m, image + 32)
    ensures HeaderCount(m, image) == Load(m, image + 56) % 0x1_0000
    ensures Segment(m, image, i) == PhdrAt(m, image + Load(m, image + 32) + 56 * i)
  {
    hide ReadLE, Load, PhdrAt, WordAt;
    NumbersInWord(m, image + 24);
    NumbersInWord(m, image + 32);
    NumbersInWord(m, image + 56);
  }

  /** The words of a program header; the address in memory and the alignment, its fourth and seventh, are not used. */
  lemma SegmentWords(m: Memory, a: nat)
    requires WordAt(m, a) && WordAt(m, a + 8) && WordAt(m, a + 16) && WordAt(m, a + 32) && WordAt(m, a + 40)
    ensures PhdrAt(m, a) == Phdr(Load(m, a) % 0x1_0000_0000, Load(m, a) / 0x1_0000_0000, Load(m, a + 8),
                                 Load(m, a + 16), Load(m, a + 32), Load(m, a + 40))
  {
    hide ReadLE, Load, WordAt;
    NumbersInWord(m, a);
    NumbersInWord(m, a + 8);
    NumbersInWord(m, a + 16);
    NumbersInWord(m, a + 32);
    NumbersInWord(m, a + 40);
  }

  /** Executable or not writable: code. */
  function FlagsFor(ph: Phdr): (f: nat)
    ensures IsFlags(f) && Present(f)
  {
    if ph.flags % 2 == 1 || ph.flags / 2 % 2 == 0 then MAP_CODE else MAP_DATA
  }

  lemma {:induction false} SameNumber(m0: Memory, m: Memory, image: nat, len: nat, a: nat, n: nat)
    requires SameArea(m0, m, image, len) && image <= a && a + n <= image + len
    ensures ReadLE(m, a, n) == ReadLE(m0, a, n)
    decreases n
  {
    if n > 0 { SameNumber(m0, m, image, len, a + 1, n - 1); }
  }

  /** The image lies within len bytes, headers and segments included. */
  ghost predicate ImageOk(m: Memory, image: nat, len: nat) {
    && 64 <= len && Headers(m, image) + 56 * HeaderCount(m, image) <= image + len
    && forall i: nat {:trigger Segment(m, image, i)} ::
      i < HeaderCount(m, image) && Segment(m, image, i).kind == PT_LOAD ==>
      var ph := Segment(m, image, i);
        ph.offset + ph.filesz <= len && ph.filesz <= ph.memsz && ph.vaddr + ph.memsz <= SPAN
  }

  lemma SameImage(m0: Memory, m: Memory, image: nat, len: nat, i: nat)
    requires ImageOk(m0, image, len) && SameArea(m0, m, image, len)
    ensures HeaderCount(m, image) == HeaderCount(m0, image) && Headers(m, image) == Headers(m0, image)
    ensures EntryPoint(m, image) == EntryPoint(m0, image)
    ensures i < HeaderCount(m0, image) ==> Segment(m, image, i) == Segment(m0, image, i)
  {
    hide SameArea, ReadLE;
    SameNumber(m0, m, image, len, image + 56, 2);
    SameNumber(m0, m, image, len, image + 32, 8);
    SameNumber(m0, m, image, len, image + 24, 8);
    if i < HeaderCount(m0, image) {
      var a := Headers(m0, image) + 56 * i;
      SameNumber(m0, m, image, len, a, 4);
      SameNumber(m0, m, image, len, a + 4, 4);
      SameNumber(m0, m, image, len, a + 8, 8);
      SameNumber(m0, m, image, len, a + 16, 8);
      SameNumber(m0, m, image, len, a + 32, 8);
      SameNumber(m0, m, image, len, a + 40, 8);
    }
  }

  /** No byte of the image lies in a page that may be written. */
  ghost predicate ImageApart(w0: World, image: nat, len: nat) {
    forall s: nat {:trigger Floor(s)} :: image <= s < image + len ==> Floor(s) !in Reach(w0)
  }

  lemma ImageStays(m0: Memory, w0: World, m: Memory, w: World, root: nat, d: Space, image: nat, len: nat)
    requires Journey(m0, w0, m, w, root, d) && ImageApart(w0, image, len)
    ensures SameArea(m0, m, image, len)
    ensures forall s: nat {:trigger Floor(s)} :: image <= s < image + len ==> Floor(s) !in Pages(d)
  {
    forall s: nat | image <= s < image + len ensures ByteAt(m, s) == ByteAt(m0, s) {
      assert Floor(s) !in Reach(w0);
      SomeByteKept(m0, m, Reach(w0), s);
      hide *;
    }
  }

  // ----- one segment

  ghost predicate SegPage(ph: Phdr, v: nat) {
    ph.kind == PT_LOAD && InRange(Floor(ph.vaddr), ph.vaddr + ph.memsz, v)
  }

  /** What the image says about the byte at an address of the segment. */
  function ImageByte(m0: Memory, image: nat, ph: Phdr, a: nat): nat
    requires ph.vaddr <= a
  {
    if a < ph.vaddr + ph.filesz then ByteAt(m0, image + ph.offset + (a - ph.vaddr)) else 0
  }

  /** Every byte of the segment is seen at its address, through a page with the right flags. */
  ghost predicate SegmentSeen(m0: Memory, image: nat, ph: Phdr, m: Memory, d: Space) {
    ph.kind == PT_LOAD ==> forall a: nat {:trigger Floor(a)} :: ph.vaddr <= a < ph.vaddr + ph.memsz ==>
      Floor(a) in d && d[Floor(a)].flags == FlagsFor(ph) && UserByte(m, d, a) == ImageByte(m0, image, ph, a)
  }

  lemma SegmentStays(m0: Memory, image: nat, ph: Phdr, m: Memory, d: Space, m': Memory, d': Space)
    requires SegmentSeen(m0, image, ph, m, d) && Kept(m, d, m', d')
    ensures SegmentSeen(m0, image, ph, m', d')
  {
    hide Floor, UserByte, ImageByte;
    forall a: nat | ph.kind == PT_LOAD && ph.vaddr <= a < ph.vaddr + ph.memsz
      ensures Floor(a) in d' && d'[Floor(a)].flags == FlagsFor(ph) && UserByte(m', d', a) == ImageByte(m0, image, ph, a)
    {
      assert Floor(a) in d;
      assert UserByte(m', d', a) == UserByte(m, d, a);
    }
  }

  /** The bytes of a segment are on its pages. */
  lemma OnSegPages(ph: Phdr, a: nat)
    requires ph.kind == PT_LOAD && ph.vaddr <= a < ph.vaddr + ph.memsz
    ensures SegPage(ph, Floor(a))
  {
    FloorFacts(a);
    FloorFacts(ph.vaddr);
    if Floor(a) < Floor(ph.vaddr) { PageGap(Floor(a), Floor(ph.vaddr)); }
  }

  /** Copies what the file holds and clears the rest. */
  method FillSegment(pager: Pager, root: nat, ph: Phdr, image: nat, ghost len: nat, ghost d: Space, ghost m0: Memory,
                     ghost w0: World)
    requires pager.Tables() && SpaceOk(pager.mem, pager.w, root, d) && Journey(m0, w0, pager.mem, pager.w, root, d)
    requires ph.kind == PT_LOAD && ph.filesz <= ph.memsz && ph.offset + ph.filesz <= len && ImageApart(w0, image, len)
    requires forall v: nat {:trigger SegPage(ph, v)} :: SegPage(ph, v) ==> v in d
    modifies pager`mem
    ensures pager.Tables() && SpaceOk(pager.mem, pager.w, root, d) && Journey(m0, w0, pager.mem, pager.w, root, d)
    ensures forall a: nat {:trigger UserByte(pager.mem, d, a)} :: Floor(a) in d ==>
      UserByte(pager.mem, d, a) == if ph.vaddr <= a < ph.vaddr + ph.memsz then ImageByte(m0, image, ph, a)
        else UserByte(old(pager.mem), d, a)
  {
    hide WorldOk, SpaceOk, Journey, OnlyIn, Reach, Pages, MapsKept, Floor, SegPage, Floor, ImageApart;
    ghost var m, w := pager.mem, pager.w;
    ImageStays(m0, w0, m, w, root, d, image, len);
    forall a: nat | ph.vaddr <= a < ph.vaddr + ph.memsz ensures Walkable(w, root, d, Floor(a)) { OnSegPages(ph, a); }
    var src := image + ph.offset;
    ghost var c := KmemMemcpy(pager, root, ph.vaddr, src, ph.filesz, d);
    ghost var m1 := pager.mem;
    if c < ph.filesz { OnSegPages(ph, ph.vaddr + c); }
    JourneyWrite(m0, w0, m, pager.lastUnused, w, m1, root, d);
    c := 0;
    if ph.memsz != ph.filesz {
      c := KmemMemclr(pager, root, ph.vaddr + ph.filesz, ph.memsz - ph.filesz, d);
      if c < ph.memsz - ph.filesz { OnSegPages(ph, ph.vaddr + ph.filesz + c); }
      JourneyWrite(m0, w0, m1, pager.lastUnused, w, pager.mem, root, d);
    } else {
      NothingYet(m1, w, d, ph.vaddr + ph.filesz, 0);
    }
    FilledThenCleared(m0, m, m1, pager.mem, d, image, len, ph);
  }

  lemma FilledThenCleared(m0: Memory, m: Memory, m1: Memory, m': Memory, d: Space, image: nat, len: nat, ph: Phdr)
    requires ph.filesz <= ph.memsz && Filled(m, m1, d, ph.vaddr, image + ph.offset, ph.filesz)
    requires Cleared(m1, m', d, ph.vaddr + ph.filesz, ph.memsz - ph.filesz) && SameArea(m0, m, image, len)
    requires ph.offset + ph.filesz <= len
    ensures forall a: nat {:trigger UserByte(m', d, a)} :: Floor(a) in d ==>
      UserByte(m', d, a) == if ph.vaddr <= a < ph.vaddr + ph.memsz then ImageByte(m0, image, ph, a)
        else UserByte(m, d, a)
  {
    hide Floor, UserByte, ByteAt;
    forall a: nat | Floor(a) in d
      ensures UserByte(m', d, a) == if ph.vaddr <= a < ph.vaddr + ph.memsz then ImageByte(m0, image, ph, a)
        else UserByte(m, d, a)
    {
      assert UserByte(m', d, a) == if ph.vaddr + ph.filesz <= a < ph.vaddr + ph.memsz then 0 else UserByte(m1, d, a);
      assert UserByte(m1, d, a) == if ph.vaddr <= a < ph.vaddr + ph.filesz
        then ByteAt(m, image + ph.offset + (a - ph.vaddr)) else UserByte(m, d, a);
    }
  }

  /** d' is d with other flags on the pages of the range. */
  ghost predicate RangeReflagged(d: Space, d': Space, lo: nat, hi: nat, flags: nat) {
    && (forall v {:trigger v in d'} :: v in d' <==> v in d)
    && (forall v {:trigger d'[v]} ::
        v in d && v in d' ==> d'[v] == if InRange(lo, hi, v) then Backing(d[v].page, flags) else d[v])
  }

  /** Other flags for a range, upwards. */
  method ReflagRange(pager: Pager, root: nat, lo: nat, hi: nat, flags: nat, ghost d: Space, ghost m0: Memory,
                     ghost w0: World) returns (ghost d': Space)
    requires pager.Tables() && SpaceOk(pager.mem, pager.w, root, d) && Journey(m0, w0, pager.mem, pager.w, root, d)
    requires lo % PAGE == 0 && IsFlags(flags) && Present(flags)
    requires forall v: nat {:trigger InRange(lo, hi, v)} :: InRange(lo, hi, v) ==> v in d
    modifies pager`mem, pager`lastUnused, pager`w
    ensures pager.Tables() && SpaceOk(pager.mem, pager.w, root, d') && Journey(m0, w0, pager.mem, pager.w, root, d')
    ensures RangeReflagged(d, d', lo, hi, flags) && BytesKept(old(pager.mem), pager.mem, d) && pager.w == old(pager.w)
  {
    hide WorldOk, SpaceOk, Journey, BytesKept, Extends, IsFlags;
    ghost var m := pager.mem;
    var start := lo;
    d' := d;
    BytesSame(m, d);
    while start < hi
      invariant start % PAGE == 0 && lo <= start && (start > lo ==> start < hi + PAGE)
      invariant pager.Tables() && SpaceOk(pager.mem, pager.w, root, d') && Journey(m0, w0, pager.mem, pager.w, root, d')
      invariant RangeReflagged(d, d', lo, start, flags) && BytesKept(m, pager.mem, d) && pager.w == old(pager.w)
      decreases hi - start
    {
      assert InRange(lo, hi, start);
      ghost var m1, d1 := pager.mem, d';
      d' := ReflagPage(pager, root, start, flags, d', m0, w0);
      BytesTwice(m, d, m1, d1, pager.mem);
      ReflagMore(d, d1, d', lo, start, flags);
      start := start + PAGE;
    }
    ReflagEnds(d, d', lo, start, hi, flags);
  }

  lemma BytesSame(m: Memory, d: Space)
    ensures BytesKept(m, m, d)
  {}

  lemma BytesTwice(m: Memory, d: Space, m1: Memory, d1: Space, m': Memory)
    requires BytesKept(m, m1, d) && BytesKept(m1, m', d1)
    requires forall v :: v in d ==> v in d1 && d1[v].page == d[v].page
    ensures BytesKept(m, m', d)
  {
    hide Floor, ByteAt;
    forall a: nat | Floor(a) in d ensures UserByte(m', d, a) == UserByte(m, d, a) {
      assert UserByte(m', d1, a) == UserByte(m1, d1, a);
      assert UserByte(m1, d, a) == UserByte(m, d, a);
    }
  }

  lemma ReflagMore(d: Space, d1: Space, d': Space, lo: nat, v: nat, flags: nat)
    requires RangeReflagged(d, d1, lo, v, flags) && v in d1 && d' == d1[v := Backing(d1[v].page, flags)]
    requires v % PAGE == 0 && lo <= v
    ensures RangeReflagged(d, d', lo, v + PAGE, flags)
  {
    forall u: nat ensures InRange(lo, v + PAGE, u) <==> InRange(lo, v, u) || u == v {
      if u % PAGE == 0 && v < u { PageGap(v, u); }
    }
    hide InRange;
  }

  lemma ReflagEnds(d: Space, d': Space, lo: nat, start: nat, hi: nat, flags: nat)
    requires RangeReflagged(d, d', lo, start, flags) && start % PAGE == 0 && lo <= start && hi <= start
    requires (start > lo ==> start < hi + PAGE)
    ensures RangeReflagged(d, d', lo, hi, flags)
  {
    forall u: nat ensures InRange(lo, hi, u) <==> InRange(lo, start, u) {
      if InRange(lo, start, u) { PageGap(u, start); }
    }
    hide InRange;
  }

  /** One segment: pages, contents, flags. What was there before stays. */
  method LoadSegment(pager: Pager, root: nat, ph: Phdr, image: nat, ghost len: nat, ghost d: Space, ghost m0: Memory,
                     ghost w0: World) returns (ghost d': Space)
    requires pager.Tables() && SpaceOk(pager.mem, pager.w, root, d) && Journey(m0, w0, pager.mem, pager.w, root, d)
    requires ph.kind == PT_LOAD && ph.filesz <= ph.memsz && ph.offset + ph.filesz <= len && ImageApart(w0, image, len)
    requires Vacant(w0, root, d, Floor(ph.vaddr), ph.vaddr + ph.memsz)
    requires |pager.w.free| >= 4 * NumPages(Floor(ph.vaddr), ph.vaddr + ph.memsz)
    modifies pager`mem, pager`lastUnused, pager`w
    ensures pager.Tables() && SpaceOk(pager.mem, pager.w, root, d') && Journey(m0, w0, pager.mem, pager.w, root, d')
    ensures RangeAdded(d, d', Floor(ph.vaddr), ph.vaddr + ph.memsz, FlagsFor(ph))
    ensures Kept(old(pager.mem), d, pager.mem, d')
    ensures SegmentSeen(m0, image, ph, pager.mem, d')
    ensures |pager.w.free| + 4 * NumPages(Floor(ph.vaddr), ph.vaddr + ph.memsz) >= |old(pager.w).free|
  {
    hide WorldOk, SpaceOk, Journey, Kept, Vacant, ImageApart, NumPages, BytesKept, RangeReflagged;
    ghost var m, lo, hi := pager.mem, Floor(ph.vaddr), ph.vaddr + ph.memsz;
    FloorFacts(ph.vaddr);
    var start, end := ph.vaddr - ph.vaddr % PAGE, ph.vaddr + ph.memsz;
    ghost var d1 := MapRange(pager, root, start, end, d, m0, w0);
    ghost var m1 := pager.mem;
    FillSegment(pager, root, ph, image, len, d1, m0, w0);
    ghost var m2 := pager.mem;
    d' := d1;
    BytesSame(m2, d1);
    if ph.flags % 2 == 1 || ph.flags / 2 % 2 == 0 {
      start := ph.vaddr - ph.vaddr % PAGE;
      end := ph.vaddr + ph.memsz;
      d' := ReflagRange(pager, root, start, end, MAP_CODE, d1, m0, w0);
    }
    SegmentDone(m0, image, ph, w0, root, m, d, m1, d1, m2, pager.mem, d');
  }

  /** The three steps of a segment put together. */
  lemma SegmentDone(m0: Memory, image: nat, ph: Phdr, w0: World, root: nat, m: Memory, d: Space, m1: Memory, d1: Space,
                    m2: Memory, m': Memory, d': Space)
    requires ph.kind == PT_LOAD && Vacant(w0, root, d, Floor(ph.vaddr), ph.vaddr + ph.memsz)
    requires RangeAdded(d, d1, Floor(ph.vaddr), ph.vaddr + ph.memsz, MAP_DATA) && Kept(m, d, m1, d1)
    requires BytesKept(m2, m', d1)
    requires forall a: nat {:trigger UserByte(m2, d1, a)} :: Floor(a) in d1 ==>
      UserByte(m2, d1, a) == if ph.vaddr <= a < ph.vaddr + ph.memsz then ImageByte(m0, image, ph, a)
        else UserByte(m1, d1, a)
    requires (d' == d1 && FlagsFor(ph) == MAP_DATA)
      || RangeReflagged(d1, d', Floor(ph.vaddr), ph.vaddr + ph.memsz, FlagsFor(ph))
    ensures RangeAdded(d, d', Floor(ph.vaddr), ph.vaddr + ph.memsz, FlagsFor(ph)) && Kept(m, d, m', d')
    ensures SegmentSeen(m0, image, ph, m', d')
  {
    var lo, hi := Floor(ph.vaddr), ph.vaddr + ph.memsz;
    hide Floor, ByteAt, FlagsFor, InRange, ImageByte;
    forall v | v in d1 ensures v in d' && d'[v].page == d1[v].page && (d'[v] == d1[v] || InRange(lo, hi, v)) {}
    forall v | v in d ensures v in d' && d'[v] == d[v] { assert InRange(lo, hi, v) ==> v !in d; assert d1[v] == d[v]; }
    forall a: nat | Floor(a) in d1 ensures UserByte(m', d', a) == UserByte(m2, d1, a) {
      assert UserByte(m', d1, a) == UserByte(m2, d1, a);
    }
    forall a: nat | Floor(a) in d ensures UserByte(m', d', a) == UserByte(m, d, a) {
      if ph.vaddr <= a < ph.vaddr + ph.memsz { OnSegPages(ph, a); }
      assert UserByte(m2, d1, a) == UserByte(m1, d1, a);
      assert UserByte(m1, d1, a) == UserByte(m, d, a);
    }
    forall a: nat | ph.vaddr <= a < ph.vaddr + ph.memsz
      ensures Floor(a) in d' && d'[Floor(a)].flags == FlagsFor(ph) && UserByte(m', d', a) == ImageByte(m0, image, ph, a)
    {
      OnSegPages(ph, a);
      assert InRange(lo, hi, Floor(a));
      assert d1[Floor(a)].flags == MAP_DATA;
    }
  }

  // ----- the whole program

  /** New pages for the stack, downwards. */
  method MapStack(pager: Pager, root: nat, size: nat, ghost m0: Memory, ghost w0: World) returns (ghost d: Space)
    requires pager.Tables() && m0 == pager.mem && w0 == pager.w
    requires size % PAGE == 0 && size <= STACK_TOP && Vacant(w0, root, map[], STACK_TOP - size, STACK_TOP)
    requires |pager.w.free| >= 4 * (size / PAGE)
    modifies pager`mem, pager`lastUnused, pager`w
    ensures pager.Tables() && SpaceOk(pager.mem, pager.w, root, d) && Journey(m0, w0, pager.mem, pager.w, root, d)
    ensures RangeAdded(map[], d, STACK_TOP - size, STACK_TOP, MAP_DATA)
    ensures |pager.w.free| + 4 * (size / PAGE) >= |old(pager.w).free|
  {
    hide WorldOk, SpaceOk, Journey, Own, Kept;
    d := map[];
    JourneyStart(pager.mem, pager.w, root);
    RangeNone(d, STACK_TOP, MAP_DATA);
    var stackSize, stackBottom := size, STACK_TOP;
    while stackSize > 0
      invariant 0 <= stackSize <= size && stackSize % PAGE == 0 && stackBottom == STACK_TOP - size + stackSize
      invariant pager.Tables() && SpaceOk(pager.mem, pager.w, root, d) && Journey(m0, w0, pager.mem, pager.w, root, d)
      invariant RangeAdded(map[], d, stackBottom, STACK_TOP, MAP_DATA)
      invariant |pager.w.free| + 4 * (size / PAGE) >= |old(pager.w).free| + 4 * (stackSize / PAGE)
      invariant |pager.w.free| >= 4 * (stackSize / PAGE)
    {
      OnePageLess(size, stackSize);
      stackBottom := stackBottom - PAGE;
      stackSize := stackSize - PAGE;
      assert InRange(STACK_TOP - size, STACK_TOP, stackBottom) && !InRange(stackBottom + PAGE, STACK_TOP, stackBottom);
      ghost var m1, d1 := pager.mem, d;
      d := MapNewPage(pager, root, stackBottom, d, m0, w0);
      RangeBelow(d1, d, stackBottom, STACK_TOP, MAP_DATA, m1, pager.mem);
    }
  }

  lemma OnePageLess(size: nat, left: nat)
    requires size % PAGE == 0 && left % PAGE == 0 && 0 < left <= size <= STACK_TOP
    ensures left >= PAGE && (left - PAGE) % PAGE == 0 && left / PAGE == (left - PAGE) / PAGE + 1
    ensures (STACK_TOP - size + left - PAGE) % PAGE == 0
  {
    var k, n := left / PAGE, size / PAGE;
    assert left == PAGE * k && size == PAGE * n;
    assert STACK_TOP - size + left - PAGE == PAGE * (0x8_0000 - n + k - 1);
    PageTimes(0x8_0000 - n + k - 1);
  }

  lemma RangeBelow(d1: Space, d: Space, v: nat, hi: nat, flags: nat, m: Memory, m': Memory)
    requires RangeAdded(map[], d1, v + PAGE, hi, flags) && Kept(m, d1, m', d) && d.Keys == d1.Keys + {v}
    requires d[v].flags == flags && v % PAGE == 0 && v < hi
    ensures RangeAdded(map[], d, v, hi, flags)
  {
    forall u: nat ensures InRange(v, hi, u) <==> InRange(v + PAGE, hi, u) || u == v {
      if u % PAGE == 0 && v < u { PageGap(v, u); }
    }
    hide Floor, UserByte;
    forall u | InRange(v, hi, u) ensures u in d && d[u].flags == flags {
      if u != v { assert d1[u].flags == flags; }
    }
  }

  function SegmentPages(ph: Phdr): nat {
    if ph.kind == PT_LOAD then NumPages(Floor(ph.vaddr), ph.vaddr + ph.memsz) else 0
  }

  /** How many pages the headers from i on ask for. */
  function PagesFrom(m: Memory, image: nat, i: nat): nat
    decreases HeaderCount(m, image) - i
  {
    if i < HeaderCount(m, image) then SegmentPages(Segment(m, image, i)) + PagesFrom(m, image, i + 1) else 0
  }

  /** A page of the stack or of one of the first n segments. */
  ghost predicate TaskPage(m: Memory, image: nat, stack: nat, n: nat, v: nat) {
    InRange(STACK_TOP - stack, STACK_TOP, v) || exists j: nat {:trigger Segment(m, image, j)} ::
      j < n && SegPage(Segment(m, image, j), v)
  }

  /** No page belongs to two segments, or to a segment and the stack; all walks are private. */
  ghost predicate LayoutOk(m: Memory, image: nat, stack: nat, w: World, root: nat) {
    && (forall i: nat, v: nat {:trigger SegPage(Segment(m, image, i), v)} ::
        i < HeaderCount(m, image) && SegPage(Segment(m, image, i), v) ==> !TaskPage(m, image, stack, i, v))
    && (forall v: nat {:trigger Own(w, root, v)} ::
        TaskPage(m, image, stack, HeaderCount(m, image), v) ==> Own(w, root, v))
  }

  /** What has been built once the stack and n segments are there. */
  ghost predicate Built(m0: Memory, image: nat, stack: nat, n: nat, m: Memory, d: Space) {
    && (forall v {:trigger v in d} :: v in d <==> TaskPage(m0, image, stack, n, v))
    && (forall v {:trigger d[v]} :: InRange(STACK_TOP - stack, STACK_TOP, v) && v in d ==> d[v].flags == MAP_DATA)
    && (forall j: nat {:trigger Segment(m0, image, j)} :: j < n ==> SegmentSeen(m0, image, Segment(m0, image, j), m, d))
  }

  lemma BuiltNone(m0: Memory, image: nat, stack: nat, m: Memory, d: Space)
    requires stack <= STACK_TOP && RangeAdded(map[], d, STACK_TOP - stack, STACK_TOP, MAP_DATA)
    ensures Built(m0, image, stack, 0, m, d)
  {
    hide InRange;
  }

  lemma BuiltSkip(m0: Memory, image: nat, stack: nat, n: nat, m: Memory, d: Space)
    requires stack <= STACK_TOP && Built(m0, image, stack, n, m, d) && Segment(m0, image, n).kind != PT_LOAD
    ensures Built(m0, image, stack, n + 1, m, d)
  {
    hide InRange, Segment;
    forall v: nat ensures TaskPage(m0, image, stack, n + 1, v) <==> TaskPage(m0, image, stack, n, v) {}
    hide TaskPage;
    assert SegmentSeen(m0, image, Segment(m0, image, n), m, d);
    forall j: nat | j < n + 1 ensures SegmentSeen(m0, image, Segment(m0, image, j), m, d) { hide SegmentSeen; }
  }

  lemma BuiltMore(m0: Memory, image: nat, stack: nat, n: nat, m: Memory, d: Space, m': Memory, d': Space, ph: Phdr)
    requires stack <= STACK_TOP && Built(m0, image, stack, n, m, d) && ph == Segment(m0, image, n) && ph.kind == PT_LOAD
    requires RangeAdded(d, d', Floor(ph.vaddr), ph.vaddr + ph.memsz, FlagsFor(ph)) && Kept(m, d, m', d')
    requires SegmentSeen(m0, image, ph, m', d')
    ensures Built(m0, image, stack, n + 1, m', d')
  {
    hide InRange, Segment, Floor, SegmentSeen, FlagsFor, UserByte;
    forall v: nat ensures v in d' <==> TaskPage(m0, image, stack, n + 1, v) {
      assert v in d <==> TaskPage(m0, image, stack, n, v);
      assert SegPage(ph, v) <==> InRange(Floor(ph.vaddr), ph.vaddr + ph.memsz, v);
    }
    forall v: nat | InRange(STACK_TOP - stack, STACK_TOP, v) && v in d' ensures d'[v].flags == MAP_DATA {
      assert TaskPage(m0, image, stack, n, v);
      assert v in d && d'[v] == d[v];
    }
    forall j: nat | j < n + 1 ensures SegmentSeen(m0, image, Segment(m0, image, j), m', d') {
      if j < n { SegmentStays(m0, image, Segment(m0, image, j), m, d, m', d'); }
    }
  }

  /** The pages of the next segment are vacant. */
  lemma NextVacant(m0: Memory, image: nat, len: nat, stack: nat, w0: World, root: nat, n: nat, m: Memory, d: Space,
                   ph: Phdr)
    requires stack <= STACK_TOP && Built(m0, image, stack, n, m, d) && LayoutOk(m0, image, stack, w0, root)
    requires n < HeaderCount(m0, image)
    requires ph == Segment(m0, image, n) && ph.kind == PT_LOAD && ph.vaddr + ph.memsz <= SPAN
    ensures Vacant(w0, root, d, Floor(ph.vaddr), ph.vaddr + ph.memsz)
  {
    hide Segment, Own, SegmentSeen;
    forall v: nat | InRange(Floor(ph.vaddr), ph.vaddr + ph.memsz, v)
      ensures v !in d && v + PAGE <= SPAN && Own(w0, root, v)
    {
      assert SegPage(Segment(m0, image, n), v);
      PageGap(v, SPAN);
      assert TaskPage(m0, image, stack, HeaderCount(m0, image), v);
    }
  }

  lemma StackVacant(m0: Memory, image: nat, stack: nat, w0: World, root: nat)
    requires stack <= STACK_TOP && LayoutOk(m0, image, stack, w0, root)
    ensures Vacant(w0, root, map[], STACK_TOP - stack, STACK_TOP)
  {
    hide Segment, Own, SegPage;
    forall v: nat | InRange(STACK_TOP - stack, STACK_TOP, v) ensures v + PAGE <= SPAN && Own(w0, root, v) {
      assert TaskPage(m0, image, stack, HeaderCount(m0, image), v);
    }
  }

  class TaskState {
    var cr3: nat
    var rsp: nat
    var rip: nat
    var state: nat
  }

  /** An address is mapped with these flags to a page that holds this byte at its place. */
  ghost predicate Shows(m: Memory, root: nat, a: nat, flags: nat, b: nat) {
    var t := Translate(m, root, a);
    t.Some? && t.value == PageOf(t.value) + flags && ByteAt(m, PageOf(t.value) + a % PAGE) == b
  }

  /** Every byte of a segment shows what the image says, every page of the stack is there. */
  ghost predicate ProgramShown(m0: Memory, image: nat, stack: nat, m: Memory, root: nat) {
    && (forall i: nat, a: nat {:trigger ImageByte(m0, image, Segment(m0, image, i), a)} ::
         i < HeaderCount(m0, image) && Segment(m0, image, i).kind == PT_LOAD
           && Segment(m0, image, i).vaddr <= a < Segment(m0, image, i).vaddr + Segment(m0, image, i).memsz ==>
         Shows(m, root, a, FlagsFor(Segment(m0, image, i)), ImageByte(m0, image, Segment(m0, image, i), a)))
    && (forall a: nat {:trigger Translate(m, root, a)} :: STACK_TOP - stack <= a < STACK_TOP ==>
        Shows(m, root, a, MAP_DATA, ByteAt(m, PageOf(TransValue(m, root, a)) + a % PAGE)))
  }

  function TransValue(m: Memory, root: nat, a: nat): nat {
    match Translate(m, root, a) case None => 0 case Some(e) => e
  }

  lemma AllShown(m0: Memory, image: nat, stack: nat, m: Memory, last: nat, w: World, root: nat, d: Space)
    requires WorldOk(m, last, w) && SpaceOk(m, w, root, d) && Built(m0, image, stack, HeaderCount(m0, image), m, d)
    requires stack <= STACK_TOP && stack % PAGE == 0
    ensures ProgramShown(m0, image, stack, m, root)
  {
    hide Segment, WorldOk, SpaceOk, FlagsFor, ImageByte, Shows, HeaderCount, SegmentSeen, Floor;
    forall i: nat, a: nat | i < HeaderCount(m0, image) && Segment(m0, image, i).kind == PT_LOAD
      && Segment(m0, image, i).vaddr <= a < Segment(m0, image, i).vaddr + Segment(m0, image, i).memsz
      ensures Shows(m, root, a, FlagsFor(Segment(m0, image, i)), ImageByte(m0, image, Segment(m0, image, i), a))
    {
      SegmentShown(m0, image, Segment(m0, image, i), m, last, w, root, d, a);
    }
    forall a: nat | STACK_TOP - stack <= a < STACK_TOP
      ensures Shows(m, root, a, MAP_DATA, ByteAt(m, PageOf(TransValue(m, root, a)) + a % PAGE))
    {
      StackPage(stack, a);
      assert TaskPage(m0, image, stack, HeaderCount(m0, image), Floor(a));
      assert Floor(a) in d && d[Floor(a)].flags == MAP_DATA;
      StackShown(m, last, w, root, d, a);
    }
  }

  lemma SegmentShown(m0: Memory, image: nat, ph: Phdr, m: Memory, last: nat, w: World, root: nat, d: Space, a: nat)
    requires WorldOk(m, last, w) && SpaceOk(m, w, root, d) && SegmentSeen(m0, image, ph, m, d) && ph.kind == PT_LOAD
    requires ph.vaddr <= a < ph.vaddr + ph.memsz
    ensures Shows(m, root, a, FlagsFor(ph), ImageByte(m0, image, ph, a))
  {
    hide WorldOk, SpaceOk, FlagsFor, ImageByte, Translate, PageOf, ByteAt, Floor;
    assert Floor(a) in d && d[Floor(a)].flags == FlagsFor(ph) && UserByte(m, d, a) == ImageByte(m0, image, ph, a);
    hide SegmentSeen;
    SeenThrough(m, last, w, root, d, a);
  }

  lemma StackShown(m: Memory, last: nat, w: World, root: nat, d: Space, a: nat)
    requires WorldOk(m, last, w) && SpaceOk(m, w, root, d) && Floor(a) in d && d[Floor(a)].flags == MAP_DATA
    ensures Shows(m, root, a, MAP_DATA, ByteAt(m, PageOf(TransValue(m, root, a)) + a % PAGE))
  {
    hide WorldOk, SpaceOk, Translate, PageOf, ByteAt, Floor;
    SeenThrough(m, last, w, root, d, a);
  }

  /** A segment that is executable or not writable is guarded as code, any other as data. */
  ghost predicate SegmentGuarded(m: Memory, root: nat, ph: Phdr, a: nat) {
    Guarded(m, root, a, ph.flags % 2 == 1 || ph.flags / 2 % 2 == 0)
  }

  /** Every byte of a segment is guarded as its header says, the stack as data. */
  ghost predicate ProgramGuarded(m0: Memory, image: nat, stack: nat, m: Memory, root: nat) {
    && (forall i: nat, a: nat {:trigger ImageByte(m0, image, Segment(m0, image, i), a)} ::
         i < HeaderCount(m0, image) && Segment(m0, image, i).kind == 1
           && Segment(m0, image, i).vaddr <= a < Segment(m0, image, i).vaddr + Segment(m0, image, i).memsz ==>
         SegmentGuarded(m, root, Segment(m0, image, i), a))
    && (forall a: nat {:trigger Translate(m, root, a)} :: 0x8000_0000 - stack <= a < 0x8000_0000 ==>
        Guarded(m, root, a, false))
  }

  lemma ShownGuarded(m0: Memory, image: nat, stack: nat, m: Memory, root: nat)
    requires ProgramShown(m0, image, stack, m, root)
    ensures ProgramGuarded(m0, image, stack, m, root)
  {
    hide Segment, ImageByte, Shows, HeaderCount, Guarded, SegmentGuarded;
    forall i: nat, a: nat | i < HeaderCount(m0, image) && Segment(m0, image, i).kind == 1
      && Segment(m0, image, i).vaddr <= a < Segment(m0, image, i).vaddr + Segment(m0, image, i).memsz
      ensures SegmentGuarded(m, root, Segment(m0, image, i), a)
    {
      ShownRights(m, root, a, Segment(m0, image, i), ImageByte(m0, image, Segment(m0, image, i), a));
    }
    forall a: nat | STACK_TOP - stack <= a < STACK_TOP ensures Guarded(m, root, a, false) {
      var t := Translate(m, root, a);
      DataRights(m, root, a, ByteAt(m, PageOf(TransValue(m, root, a)) + a % PAGE));
    }
  }

  lemma ShownRights(m: Memory, root: nat, a: nat, ph: Phdr, b: nat)
    requires Shows(m, root, a, FlagsFor(ph), b)
    ensures SegmentGuarded(m, root, ph, a)
  {
    hide Translate, ByteAt, PageOf;
    if ph.flags % 2 == 1 || ph.flags / 2 % 2 == 0 {
      CodeBits(TransValue(m, root, a));
    } else {
      DataRights(m, root, a, b);
    }
  }

  lemma DataRights(m: Memory, root: nat, a: nat, b: nat)
    requires Shows(m, root, a, MAP_DATA, b)
    ensures Guarded(m, root, a, false)
  {
    hide Translate, ByteAt, PageOf;
    DataBits(TransValue(m, root, a));
  }

  lemma WayTo(m: Memory, last: nat, w: World, root: nat, d: Space, a: nat)
    requires WorldOk(m, last, w) && SpaceOk(m, w, root, d) && OpenRoot(m, w, root) && Floor(a) in d
    ensures OpenWay(m, root, a)
  {
    var v := Floor(a);
    hide WorldOk, OpenRoot;
    assert Backed(m, w, root, v, d[v]);
    BackedWalk(m, last, w, root, v, d);
    hide SpaceOk, Backed, Own;
    WalkRights(m, last, w, root, v);
    FloorFacts(a);
    assert a / PAGE == v / PAGE by { PageDivides(a / PAGE, 0); }
    hide At, PagingAddr, Floor, Load;
    SamePlace(root, a, root, v);
    SameIndices(root, a, root, v, 4);
    forall n | 0 <= n < 3 ensures PagingAddr(m, root, a, n) == PagingAddr(m, root, v, n) { SameWalk(m, root, a, v, n); }
  }

  lemma SegmentIs(m: Memory, image: nat, i: nat)
    ensures Segment(m, image, i) == PhdrAt(m, Headers(m, image) + 56 * i)
  {}

  lemma StackPage(stack: nat, a: nat)
    requires stack <= STACK_TOP && stack % PAGE == 0 && STACK_TOP - stack <= a < STACK_TOP
    ensures InRange(STACK_TOP - stack, STACK_TOP, Floor(a))
  {
    FloorFacts(a);
    assert stack == PAGE * (stack / PAGE);
    var lo: nat := STACK_TOP - stack;
    assert lo == PAGE * (0x8_0000 - stack / PAGE);
    PageTimes(0x8_0000 - stack / PAGE);
    if Floor(a) < lo { PageGap(Floor(a), lo); }
  }

  /** Loads a program into a root: the stack, then every segment, in the order of the image. */
  method LoadProgram(pager: Pager, ts: TaskState, root: nat, image: nat, stackSize: nat, ghost len: nat)
    returns (ghost d: Space)
    requires pager.Tables() && ImageOk(pager.mem, image, len) && ImageApart(pager.w, image, len)
    requires Floor(stackSize + 0xfff) <= STACK_TOP
    requires LayoutOk(pager.mem, image, Floor(stackSize + 0xfff), pager.w, root)
    requires |pager.w.free| >= 4 * (Floor(stackSize + 0xfff) / PAGE) + 4 * PagesFrom(pager.mem, image, 0)
    modifies pager`mem, pager`lastUnused, pager`w, ts
    ensures pager.Tables() && ProgramShown(old(pager.mem), image, Floor(stackSize + 0xfff), pager.mem, root)
    ensures ProgramGuarded(old(pager.mem), image, Floor(stackSize + 0xfff), pager.mem, root)
    ensures SpaceOk(pager.mem, pager.w, root, d)
    ensures OnlyIn(old(pager.mem), pager.mem, Reach(old(pager.w)))
    ensures OthersAlone(old(pager.mem), old(pager.w), pager.mem, pager.w, root, d)
    ensures TablesBuilt(old(pager.mem), old(pager.w), pager.mem, pager.w) && pager.w.foreign == old(pager.w).foreign
    ensures forall v ::
      v in d <==> TaskPage(old(pager.mem), image, Floor(stackSize + 0xfff), HeaderCount(old(pager.mem), image), v)
    ensures ts.cr3 == root && ts.rsp == 0x8000_0000 && ts.rip == EntryPoint(old(pager.mem), image) && ts.state == 1
  {
    hide ProgramGuarded, WorldOk, SpaceOk, Journey, Own, Kept, Vacant, SegmentSeen, ImageApart, LayoutOk, Built,
      Segment, NumPages, ReadLE, SameArea, Floor, TaskPage, RangeAdded, FlagsFor, ProgramShown, OnlyIn, Reach,
      OthersAlone;
    ghost var m0, w0 := pager.mem, pager.w;
    ts.cr3 := root;
    FloorFacts(stackSize + 0xfff);
    var size := Floor(stackSize + 0xfff);
    StackVacant(m0, image, size, w0, root);
    d := MapStack(pager, root, size, m0, w0);
    BuiltNone(m0, image, size, pager.mem, d);
    ts.rsp := STACK_TOP;
    ImageStays(m0, w0, pager.mem, pager.w, root, d, image, len);
    SameImage(m0, pager.mem, image, len, 0);
    var phdrs := Headers(pager.mem, image);
    var i := 0;
    while i < HeaderCount(pager.mem, image)
      invariant ts.cr3 == root && ts.rsp == STACK_TOP && phdrs == Headers(m0, image)
      invariant 0 <= i <= HeaderCount(m0, image) && SameArea(m0, pager.mem, image, len)
      invariant HeaderCount(pager.mem, image) == HeaderCount(m0, image)
      invariant pager.Tables() && SpaceOk(pager.mem, pager.w, root, d) && Journey(m0, w0, pager.mem, pager.w, root, d)
      invariant Built(m0, image, size, i, pager.mem, d) && |pager.w.free| >= 4 * PagesFrom(m0, image, i)
      decreases HeaderCount(m0, image) - i
    {
      SameImage(m0, pager.mem, image, len, i);
      var ph := PhdrAt(pager.mem, phdrs + 56 * i);
      SegmentIs(pager.mem, image, i);
      if ph.kind != PT_LOAD {
        BuiltSkip(m0, image, size, i, pager.mem, d);
      } else {
        NextVacant(m0, image, len, size, w0, root, i, pager.mem, d, ph);
        ghost var m1, d1 := pager.mem, d;
        d := LoadSegment(pager, root, ph, image, len, d, m0, w0);
        BuiltMore(m0, image, size, i, m1, d1, pager.mem, d, ph);
        ImageStays(m0, w0, pager.mem, pager.w, root, d, image, len);
        SameImage(m0, pager.mem, image, len, i);
      }
      i := i + 1;
    }
    SameImage(m0, pager.mem, image, len, 0);
    ts.rip := EntryPoint(pager.mem, image);
    ts.state := TASK_STATE_VALID;
    AllShown(m0, image, size, pager.mem, pager.lastUnused, pager.w, root, d);
    ShownGuarded(m0, image, size, pager.mem, root);
    JourneyEnd(m0, w0, pager.mem, pager.w, root, d);
    BuiltPages(m0, image, size, pager.mem, d);
  }

  lemma JourneyEnd(m0: Memory, w0: World, m: Memory, w: World, root: nat, d: Space)
    requires Journey(m0, w0, m, w, root, d)
    ensures OnlyIn(m0, m, Reach(w0)) && OthersAlone(m0, w0, m, w, root, d)
    ensures TablesBuilt(m0, w0, m, w) && w.foreign == w0.foreign
  {}

  lemma BuiltPages(m0: Memory, image: nat, stack: nat, m: Memory, d: Space)
    requires stack <= STACK_TOP && Built(m0, image, stack, HeaderCount(m0, image), m, d)
    ensures forall v :: v in d <==> TaskPage(m0, image, stack, HeaderCount(m0, image), v)
  {
    hide TaskPage, SegmentSeen;
  }

  // ----- into a new root

  /** The image reads the same when only pages outside it were written. */
  lemma ImageSame(m0: Memory, m: Memory, image: nat, len: nat)
    requires ImageOk(m0, image, len) && SameArea(m0, m, image, len)
    ensures ImageOk(m, image, len) && HeaderCount(m, image) == HeaderCount(m0, image)
    ensures EntryPoint(m, image) == EntryPoint(m0, image)
    ensures forall i: nat {:trigger Segment(m, image, i)} ::
      i < HeaderCount(m0, image) ==> Segment(m, image, i) == Segment(m0, image, i)
    ensures PagesFrom(m, image, 0) == PagesFrom(m0, image, 0)
  {
    hide SameArea, ReadLE;
    SameImage(m0, m, image, len, 0);
    forall i: nat | i < HeaderCount(m0, image) ensures Segment(m, image, i) == Segment(m0, image, i) {
      SameImage(m0, m, image, len, i);
    }
    hide Segment, Headers, HeaderCount;
    PagesSame(m0, m, image, 0);
  }

  lemma {:induction false} PagesSame(m0: Memory, m: Memory, image: nat, i: nat)
    requires HeaderCount(m, image) == HeaderCount(m0, image)
    requires forall j: nat {:trigger Segment(m, image, j)} ::
      j < HeaderCount(m0, image) ==> Segment(m, image, j) == Segment(m0, image, j)
    ensures PagesFrom(m, image, i) == PagesFrom(m0, image, i)
    decreases HeaderCount(m0, image) - i
  {
    hide Segment;
    if i < HeaderCount(m0, image) { PagesSame(m0, m, image, i + 1); }
  }

  lemma TaskPageSame(m0: Memory, m: Memory, image: nat, stack: nat, n: nat, v: nat)
    requires stack <= STACK_TOP && n <= HeaderCount(m0, image)
    requires forall j: nat {:trigger Segment(m, image, j)} ::
      j < HeaderCount(m0, image) ==> Segment(m, image, j) == Segment(m0, image, j)
    ensures TaskPage(m, image, stack, n, v) <==> TaskPage(m0, image, stack, n, v)
  {
    hide Segment, SegPage;
    assert forall j: nat {:trigger Segment(m0, image, j)} :: j < n ==> Segment(m, image, j) == Segment(m0, image, j);
  }

  /**
   * No page belongs to two segments, or to a segment and the stack; none lies where roots share the kernel's regions.
   */
  ghost predicate ProgramOk(m: Memory, image: nat, stack: nat)
    requires stack <= STACK_TOP
  {
    && (forall i: nat, v: nat {:trigger SegPage(Segment(m, image, i), v)} ::
        i < HeaderCount(m, image) && SegPage(Segment(m, image, i), v) ==>
        !TaskPage(m, image, stack, i, v))
    && (forall v: nat {:trigger TaskPage(m, image, stack, HeaderCount(m, image), v)} ::
        TaskPage(m, image, stack, HeaderCount(m, image), v) ==> WayClear(0, v, 3, Shares(0, 5)))
  }

  /** The regions of the kernel are in the upper half of the address space. */
  lemma LowerHalfClear(v: nat)
    requires v < 0x8000_0000_0000
    ensures WayClear(0, v, 3, Shares(0, 5))
  {
    assert Index(v, 0) < 256;
    hide Index;
    FirstDigit(0, v, 1);
    FirstDigit(0, v, 2);
    FirstDigit(0, v, 3);
    forall n | 0 < n <= 3 ensures At(0, v, n) !in Shares(0, 5) { assert At(0, v, n).path[0] < 256; }
  }

  /** The layout suits the new root. */
  lemma LayoutInNew(m0: Memory, last0: nat, w0: World, m: Memory, w: World, root: nat, image: nat, len: nat, stack: nat)
    requires WorldOk(m0, last0, w0) && Sprouted(m0, w0, m, w, root) && SharedOnly(w0, w, Shares(root, 5))
    requires stack <= STACK_TOP
    requires ImageOk(m0, image, len) && SameArea(m0, m, image, len) && ProgramOk(m0, image, stack)
    ensures LayoutOk(m, image, stack, w, root)
  {
    hide WorldOk, Sprouted, SharedOnly, SegPage, SameArea, ReadLE, TaskPage;
    ImageSame(m0, m, image, len);
    forall i: nat, v: nat | i < HeaderCount(m, image) && SegPage(Segment(m, image, i), v)
      ensures !TaskPage(m, image, stack, i, v)
    {
      TaskPageSame(m0, m, image, stack, i, v);
      assert SegPage(Segment(m0, image, i), v);
    }
    forall v: nat | TaskPage(m, image, stack, HeaderCount(m, image), v) ensures Own(w, root, v) {
      TaskPageSame(m0, m, image, stack, HeaderCount(m, image), v);
      OwnInNew(m0, last0, w0, m, w, root, v);
    }
  }

  lemma OwnInNew(m0: Memory, last0: nat, w0: World, m: Memory, w: World, root: nat, v: nat)
    requires WorldOk(m0, last0, w0) && Sprouted(m0, w0, m, w, root) && SharedOnly(w0, w, Shares(root, 5))
    requires WayClear(0, v, 3, Shares(0, 5))
    ensures Own(w, root, v)
  {
    hide WorldOk, OnlyIn, TabsGrown, Index, SharedOnly, CopiedPlace;
    forall n | 0 < n <= 3 ensures At(root, v, n) !in Shares(root, 5) {
      SamePathAt(0, root, v, n);
      assert At(0, v, n) !in Shares(0, 5);
    }
    OwnNext(m0, last0, w0, w, root, v, 3, Shares(root, 5));
  }

  lemma ProgramSame(m0: Memory, m1: Memory, image: nat, len: nat, stack: nat, m: Memory, root: nat)
    requires stack <= STACK_TOP && ImageOk(m0, image, len) && SameArea(m0, m1, image, len)
    requires ProgramShown(m1, image, stack, m, root)
    ensures ProgramShown(m0, image, stack, m, root)
  {
    hide Shows, ByteAt, ReadLE;
    ImageSame(m0, m1, image, len);
    forall i: nat, a: nat | i < HeaderCount(m0, image) && Segment(m0, image, i).kind == PT_LOAD
      && Segment(m0, image, i).vaddr <= a < Segment(m0, image, i).vaddr + Segment(m0, image, i).memsz
      ensures Shows(m, root, a, FlagsFor(Segment(m0, image, i)), ImageByte(m0, image, Segment(m0, image, i), a))
    {
      assert Segment(m1, image, i) == Segment(m0, image, i);
      ImageByteSame(m0, m1, image, len, i, a);
      assert Shows(m, root, a, FlagsFor(Segment(m1, image, i)), ImageByte(m1, image, Segment(m1, image, i), a));
    }
    forall a: nat | STACK_TOP - stack <= a < STACK_TOP
      ensures Shows(m, root, a, MAP_DATA, ByteAt(m, PageOf(TransValue(m, root, a)) + a % PAGE))
    {
      var t := Translate(m, root, a);
    }
  }

  lemma ImageByteSame(m0: Memory, m1: Memory, image: nat, len: nat, i: nat, a: nat)
    requires ImageOk(m0, image, len) && SameArea(m0, m1, image, len) && i < HeaderCount(m0, image)
    requires Segment(m0, image, i).kind == PT_LOAD && Segment(m0, image, i).vaddr <= a
    ensures ImageByte(m1, image, Segment(m0, image, i), a) == ImageByte(m0, image, Segment(m0, image, i), a)
  {
    hide ReadLE, ByteAt;
    var ph := Segment(m0, image, i);
    if a < ph.vaddr + ph.filesz {
      assert ByteAt(m1, image + ph.offset + (a - ph.vaddr)) == ByteAt(m0, image + ph.offset + (a - ph.vaddr));
    }
  }

  /** Making the root leaves the image alone, and apart. */
  lemma ImageAfter(m0: Memory, w0: World, m: Memory, w: World, root: nat, image: nat, len: nat)
    requires Sprouted(m0, w0, m, w, root) && ImageApart(w0, image, len)
    ensures SameArea(m0, m, image, len) && ImageApart(w, image, len)
  {
    ReachOf(w0, w, root);
    UnusedReach(w0);
    hide TabsGrown, CopiedPlace, Reach, Unused;
    forall s: nat | image <= s < image + len ensures ByteAt(m, s) == ByteAt(m0, s) && Floor(s) !in Reach(w) {
      assert Floor(s) !in Reach(w0);
      SomeByteKept(m0, m, Unused(w0), s);
    }
    hide *;
  }

  /** The tables above the pages of the program are open. */
  lemma WaysOpen(m0: Memory, image: nat, len: nat, stack: nat, m1: Memory, w1: World, m: Memory, last: nat, w: World,
                 root: nat, d: Space)
    requires stack <= STACK_TOP && ImageOk(m0, image, len) && SameArea(m0, m1, image, len)
    requires WorldOk(m, last, w) && SpaceOk(m, w, root, d) && OpenRoot(m1, w1, root) && TablesBuilt(m1, w1, m, w)
    requires forall v :: v in d <==> TaskPage(m1, image, stack, HeaderCount(m1, image), v)
    ensures forall a: nat {:trigger OpenWay(m, root, a)} ::
      TaskPage(m0, image, stack, HeaderCount(m0, image), Floor(a)) ==> OpenWay(m, root, a)
  {
    hide WorldOk, SpaceOk, OpenRoot, TablesBuilt, TaskPage, OpenWay, ImageOk, SameArea, TabsOk, Floor;
    TabsFine(m, last, w);
    OpenBuilt(m1, w1, m, w, root);
    ImageSame(m0, m1, image, len);
    forall a: nat | TaskPage(m0, image, stack, HeaderCount(m0, image), Floor(a)) ensures OpenWay(m, root, a) {
      TaskPageSame(m0, m1, image, stack, HeaderCount(m0, image), Floor(a));
      WayTo(m, last, w, root, d, a);
    }
  }

  lemma OtherRootsAlone(m0: Memory, last0: nat, w0: World, m1: Memory, w1: World, m: Memory, w: World, root: nat,
                        d: Space)
    requires WorldOk(m0, last0, w0) && Sprouted(m0, w0, m1, w1, root) && OthersAlone(m1, w1, m, w, root, d)
    ensures forall x {:trigger Mapped(m, w, x)} ::
      EntryPos(x) && x.root != root ==> Mapped(m, w, x) == Mapped(m0, w0, x)
  {
    hide WorldOk, Sprouted, Mapped, EntryPos;
    forall x | EntryPos(x) && x.root != root ensures Mapped(m, w, x) == Mapped(m0, w0, x) {
      SproutMaps(m0, last0, w0, m1, w1, root, x);
      assert Mapped(m, w, x) == Mapped(m1, w1, x);
    }
  }

  lemma StillWithin(m0: Memory, w0: World, m1: Memory, w1: World, m: Memory, root: nat)
    requires Sprouted(m0, w0, m1, w1, root) && OnlyIn(m1, m, Reach(w1))
    ensures OnlyIn(m0, m, Reach(w0))
  {
    ReachOf(w0, w1, root);
    UnusedReach(w0);
    hide TabsGrown, CopiedPlace, Reach, Unused, OnlyIn;
    OnlyInWider(m0, m1, Unused(w0), Reach(w0));
    OnlyInMore(m0, m1, m, Reach(w0), Reach(w1));
  }

  /**
   * Makes a root with the kernel's regions and loads a program into it. Every byte of the program is seen where it
   * belongs, with the right flags, the kernel is seen as before, and no page of any other root is mapped differently.
   */
  method TaskLoadElf(pager: Pager, ts: TaskState, current: nat, image: nat, stackSize: nat, ghost len: nat)
    requires pager.Tables() && KernelOk(pager.w, current) && ImageOk(pager.mem, image, len)
    requires ImageApart(pager.w, image, len)
    requires Floor(stackSize + 0xfff) <= STACK_TOP && ProgramOk(pager.mem, image, Floor(stackSize + 0xfff))
    requires |pager.w.free| >= 9 + 4 * (Floor(stackSize + 0xfff) / PAGE) + 4 * PagesFrom(pager.mem, image, 0)
    modifies pager`mem, pager`lastUnused, pager`w, ts
    ensures pager.Tables() && ProgramShown(old(pager.mem), image, Floor(stackSize + 0xfff), pager.mem, ts.cr3)
    ensures ProgramGuarded(old(pager.mem), image, Floor(stackSize + 0xfff), pager.mem, ts.cr3)
    ensures forall a: nat {:trigger OpenWay(pager.mem, ts.cr3, a)} ::
      TaskPage(old(pager.mem), image, Floor(stackSize + 0xfff), HeaderCount(old(pager.mem), image), Floor(a)) ==>
      OpenWay(pager.mem, ts.cr3, a)
    ensures KernelSeen(old(pager.mem), current, pager.mem, ts.cr3)
    ensures Load(old(pager.mem), current + 0xc00) % 2 == 1 ==>
      Load(pager.mem, ts.cr3 + 0xc00) == Load(old(pager.mem), current + 0xc00)
    ensures OnlyIn(old(pager.mem), pager.mem, Reach(old(pager.w))) && ts.cr3 in old(pager.w).free
    ensures forall x {:trigger Mapped(pager.mem, pager.w, x)} :: EntryPos(x) && x.root != ts.cr3 ==>
      Mapped(pager.mem, pager.w, x) == Mapped(old(pager.mem), old(pager.w), x)
    ensures ts.rsp == 0x8000_0000 && ts.rip == EntryPoint(old(pager.mem), image) && ts.state == 1
  {
    hide ProgramGuarded, OpenWay, KernelSeen, KernelWords, OpenRoot, TablesBuilt, SpaceOk, WorldOk, Sprouted,
      SharedOnly, Shares, OnlyIn, Reach, OthersAlone, ImageOk, ImageApart, LayoutOk, ProgramOk, ProgramShown, Mapped,
      EntryPos, KernelOk, PagesFrom, Floor, ReadLE, TaskPage, SameArea;
    ghost var m0, last0, w0, size := pager.mem, pager.lastUnused, pager.w, Floor(stackSize + 0xfff);
    var root := pager.KmemCreateRoot(current);
    ghost var m1, last1, w1 := pager.mem, pager.lastUnused, pager.w;
    ImageAfter(m0, w0, m1, w1, root, image, len);
    ImageSame(m0, m1, image, len);
    LayoutInNew(m0, last0, w0, m1, w1, root, image, len, size);
    ghost var d := LoadProgram(pager, ts, root, image, stackSize, len);
    ProgramSame(m0, m1, image, len, size, pager.mem, root);
    OtherRootsAlone(m0, last0, w0, m1, w1, pager.mem, pager.w, root, d);
    StillWithin(m0, w0, m1, w1, pager.mem, root);
    ShownGuarded(m0, image, size, pager.mem, root);
    WaysOpen(m0, image, len, size, m1, w1, pager.mem, pager.lastUnused, pager.w, root, d);
    KernelOn(m0, last0, w0, current, m1, last1, w1, pager.mem, pager.lastUnused, pager.w, root);
  }
}
