/**
 * The pages a loader has put under a root, and the bytes that are seen through them.
 */
module UserSpace {
  import opened Basics
  import opened Words
  import opened PageTables
  import opened PageWorld
  import opened PageRange
  import opened PageSteps
  import opened PageLedger

  /** The physical page behind a virtual page, and its flags. */
  datatype Backing = Backing(page: nat, flags: nat)

  type Space = map<nat, Backing>

  lemma FloorFacts(a: nat)
    ensures Floor(a) % PAGE == 0 && a == Floor(a) + a % PAGE && a % PAGE < PAGE
  {
    PageTimes(a / PAGE);
  }

  lemma FloorIs(v: nat, o: nat)
    requires v % PAGE == 0 && o < PAGE
    ensures Floor(v + o) == v && (v + o) % PAGE == o
  {
    assert v == PAGE * (v / PAGE);
    PageDivides(v / PAGE, o);
  }

  ghost predicate Backed(m: Memory, w: World, root: nat, v: nat, b: Backing) {
    && v % PAGE == 0 && v + PAGE <= SPAN && Own(w, root, v) && IsPage(b.page) && IsFlags(b.flags) && Present(b.flags)
    && b.page !in Reach(w) && Mapped(m, w, At(root, v, 4)) == Some(b.page + b.flags)
  }

  /** Every page of the space is mapped as it says, to a page of its own that is neither table nor unused. */
  ghost predicate SpaceOk(m: Memory, w: World, root: nat, d: Space) {
    && (forall v {:trigger d[v]} :: v in d ==> Backed(m, w, root, v, d[v]))
    && (forall u, v {:trigger d[u], d[v]} :: u in d && v in d && u != v ==> d[u].page != d[v].page)
  }

  ghost function Pages(d: Space): set<nat> {
    set v | v in d :: d[v].page
  }

  /** The byte seen at a virtual address. */
  function UserByte(m: Memory, d: Space, a: nat): nat
    requires Floor(a) in d
  {
    ByteAt(m, d[Floor(a)].page + a % PAGE)
  }

  /** What is seen through the pages of d is as before. */
  ghost predicate BytesKept(m: Memory, m': Memory, d: Space) {
    forall a: nat {:trigger UserByte(m', d, a)} :: Floor(a) in d ==> UserByte(m', d, a) == UserByte(m, d, a)
  }

  // ----- bytes and pages

  lemma ByteInPage(page: nat, o: nat)
    requires page % PAGE == 0 && o < PAGE
    ensures Floor(page + o) == page && Floor(page + o - (page + o) % 8) == page
  {
    var k := page / PAGE;
    assert page == PAGE * k;
    PageDivides(k, o);
    assert page == 8 * (512 * k);
    Mod8(512 * k + o / 8, o % 8);
    assert (page + o) % 8 == o % 8;
    PageDivides(k, o - o % 8);
  }

  lemma ByteKept(m: Memory, m': Memory, pages: set<nat>, page: nat, o: nat)
    requires OnlyIn(m, m', pages) && page % PAGE == 0 && o < PAGE && page !in pages
    ensures ByteAt(m', page + o) == ByteAt(m, page + o)
  {
    ByteInPage(page, o);
    var x := page + o - (page + o) % 8;
    assert !InPages(x, pages);
    SameBytes(m, m', page + o);
  }

  lemma SomeByteKept(m: Memory, m': Memory, pages: set<nat>, a: nat)
    requires OnlyIn(m, m', pages) && Floor(a) !in pages
    ensures ByteAt(m', a) == ByteAt(m, a)
  {
    FloorFacts(a);
    hide OnlyIn, ByteAt;
    ByteKept(m, m', pages, Floor(a), a % PAGE);
  }

  lemma UserKept(m: Memory, m': Memory, pages: set<nat>, d: Space)
    requires OnlyIn(m, m', pages) && forall v :: v in d ==> d[v].page % PAGE == 0 && d[v].page !in pages
    ensures BytesKept(m, m', d)
  {
    forall a: nat | Floor(a) in d ensures UserByte(m', d, a) == UserByte(m, d, a) {
      FloorFacts(a);
      ByteKept(m, m', pages, d[Floor(a)].page, a % PAGE);
      hide *;
    }
  }

  lemma WordGap(c: nat, k: nat)
    requires c % 8 == 0 && c < PAGE * k
    ensures c + 8 <= PAGE * k
  {
    var q := c / 8;
    assert c == 8 * q && PAGE * k == 8 * (512 * k);
    assert q < 512 * k;
  }

  /** A run of bytes within a page touches the words of that page only. */
  lemma OnlyPage(m: Memory, m': Memory, page: nat, o: nat, count: nat)
    requires OnlyWords(m, m', page + o, count) && page % PAGE == 0 && o + count <= PAGE
    ensures OnlyIn(m, m', {page})
  {
    forall c: nat | !InPages(c, {page}) ensures Load(m', c) == Load(m, c) {
      if page <= c < page + PAGE {
        FloorIs(page, c - page);
      } else if c % 8 == 0 && c < page {
        WordGap(c, page / PAGE);
      }
    }
  }

  /** Different pages of the space have different places. */
  lemma PlacesDiffer(root: nat, u: nat, v: nat)
    requires u % PAGE == 0 && v % PAGE == 0 && u < SPAN && v < SPAN && u != v
    ensures At(root, u, 4) != At(root, v, 4)
  {
    SamePlace(root, u, root, v);
    assert u == PAGE * (u / PAGE) && v == PAGE * (v / PAGE);
    assert u / PAGE < 0x10_0000_0000 && v / PAGE < 0x10_0000_0000;
  }

  // ----- one more page

  lemma PageAdded(m: Memory, w: World, w1: World, m': Memory, w': World, root: nat, v: nat, page: nat, d: Space)
    requires SpaceOk(m, w, root, d) && |w.free| > 0 && page == w.free[0] && w1 == Popped(w) && Loose(m, w1, page)
    requires Extends(w1, w') && Reach(w') == Reach(w1) && OnlyIn(m, m', Reach(w1))
    requires MappedBut(m, w1, m', w', At(root, v, 4), page + MAP_DATA)
    requires v !in d && v % PAGE == 0 && v + PAGE <= SPAN && Own(w, root, v)
    ensures SpaceOk(m', w', root, d[v := Backing(page, MAP_DATA)]) && BytesKept(m, m', d)
    ensures Reach(w') + Pages(d[v := Backing(page, MAP_DATA)]) <= Reach(w) + Pages(d)
  {
    var d' := d[v := Backing(page, MAP_DATA)];
    assert page in w.free && page in Reach(w);
    assert page !in Reach(w1);
    assert Reach(w1) <= Reach(w) by { assert forall f :: f in w1.free ==> f in w.free; }
    hide Reach;
    forall u | u in d' ensures Backed(m', w', root, u, d'[u]) {
      if u == v {
        AddedHere(m, w, w1, m', w', root, v, page);
      } else {
        assert Backed(m, w, root, u, d[u]);
        assert d[u].page !in Reach(w1);
        AddedElsewhere(m, w, w1, m', w', root, v, page, u, d[u]);
      }
      hide *;
    }
    AllBacking(m, w, root, d);
    assert forall u :: u in d ==> d[u].page !in Reach(w1) && d[u].page != page;
    UserKept(m, m', Reach(w1), d);
  }

  lemma AddedHere(m: Memory, w: World, w1: World, m': Memory, w': World, root: nat, v: nat, page: nat)
    requires |w.free| > 0 && w1 == Popped(w) && Extends(w1, w') && Reach(w') == Reach(w1) && page !in Reach(w1)
    requires IsPage(page)
    requires MappedBut(m, w1, m', w', At(root, v, 4), page + MAP_DATA) && v % PAGE == 0 && v + PAGE <= SPAN
    requires Own(w, root, v)
    ensures Backed(m', w', root, v, Backing(page, MAP_DATA))
  {
    AtBounds(root, v, 4);
    OwnPopped(w, w1, w', root, v);
    EntryFields(page, MAP_DATA);
    hide At, Own, Reach, Extends, Mapped;
  }

  lemma AddedElsewhere(m: Memory, w: World, w1: World, m': Memory, w': World, root: nat, v: nat, page: nat, u: nat,
                       b: Backing)
    requires |w.free| > 0 && w1 == Popped(w) && Extends(w1, w') && Reach(w') == Reach(w1) && b.page !in Reach(w1)
    requires MappedBut(m, w1, m', w', At(root, v, 4), page + MAP_DATA) && v % PAGE == 0 && v + PAGE <= SPAN && u != v
    requires Backed(m, w, root, u, b)
    ensures Backed(m', w', root, u, b)
  {
    AtBounds(root, u, 4);
    OwnPopped(w, w1, w', root, u);
    PlacesDiffer(root, u, v);
    SameTabsMaps(m, w, w1, At(root, u, 4));
    hide At, Own, Reach, Extends, Mapped, IsPage, IsFlags, Present;
  }

  lemma OwnPopped(w: World, w1: World, w': World, root: nat, u: nat)
    requires Own(w, root, u) && |w.free| > 0 && w1 == Popped(w) && Extends(w1, w')
    ensures Own(w', root, u)
  {
    hide At, Reach;
  }

  // ----- other flags

  lemma PageReflagged(m: Memory, w: World, m': Memory, w': World, root: nat, v: nat, flags: nat, e: nat, d: Space)
    requires SpaceOk(m, w, root, d) && v in d && IsFlags(flags) && Present(flags) && Extends(w, w')
    requires MappedBut(m, w, m', w', At(root, v, 4), e) && OnlyIn(m, m', Reach(w))
    requires e == PageOf(d[v].page + d[v].flags) + flags
    ensures SpaceOk(m', w', root, d[v := Backing(d[v].page, flags)]) && BytesKept(m, m', d)
    ensures Reach(w') + Pages(d[v := Backing(d[v].page, flags)]) <= Reach(w) + Pages(d)
  {
    hide *;
    ReflaggedOk(m, w, m', w', root, v, flags, e, d);
    AllBacking(m, w, root, d);
    UserKept(m, m', Reach(w), d);
    SamePages(d, v, flags);
    ExtendsReach(w, w');
  }

  lemma ReflaggedOk(m: Memory, w: World, m': Memory, w': World, root: nat, v: nat, flags: nat, e: nat, d: Space)
    requires SpaceOk(m, w, root, d) && v in d && IsFlags(flags) && Present(flags) && Extends(w, w')
    requires MappedBut(m, w, m', w', At(root, v, 4), e) && e == PageOf(d[v].page + d[v].flags) + flags
    ensures SpaceOk(m', w', root, d[v := Backing(d[v].page, flags)])
  {
    hide Backed, MappedBut, Extends, PageOf, At;
    var d' := d[v := Backing(d[v].page, flags)];
    forall u | u in d' ensures Backed(m', w', root, u, d'[u]) {
      assert Backed(m, w, root, u, d[u]) && Backed(m, w, root, v, d[v]);
      hide *;
      ReflaggedAt(m, w, m', w', root, v, flags, e, d[v], u, d[u]);
    }
    assert SpaceOk(m', w', root, d');
  }

  lemma AllBacking(m: Memory, w: World, root: nat, d: Space)
    requires SpaceOk(m, w, root, d)
    ensures forall u :: u in d ==> d[u].page % PAGE == 0 && d[u].page !in Reach(w)
  {
    forall u | u in d ensures d[u].page % PAGE == 0 && d[u].page !in Reach(w) {
      assert Backed(m, w, root, u, d[u]);
      BackingPage(m, w, root, u, d[u]);
    }
  }

  lemma SamePages(d: Space, v: nat, flags: nat)
    requires v in d
    ensures Pages(d[v := Backing(d[v].page, flags)]) <= Pages(d)
  {
    var d' := d[v := Backing(d[v].page, flags)];
    forall p | p in Pages(d') ensures p in Pages(d) {
      var u :| u in d' && d'[u].page == p;
      assert d[u].page == p;
    }
  }

  lemma ExtendsReach(w: World, w': World)
    requires Extends(w, w')
    ensures Reach(w') <= Reach(w)
  {}

  lemma ReflaggedAt(m: Memory, w: World, m': Memory, w': World, root: nat, v: nat, flags: nat, e: nat, b: Backing,
                    u: nat, c: Backing)
    requires Backed(m, w, root, v, b) && Backed(m, w, root, u, c) && IsFlags(flags) && Present(flags) && Extends(w, w')
    requires MappedBut(m, w, m', w', At(root, v, 4), e) && e == PageOf(b.page + b.flags) + flags
    ensures Backed(m', w', root, u, if u == v then Backing(b.page, flags) else c)
  {
    AtBounds(root, u, 4);
    OwnExtends(w, w', root, u);
    ExtendsReach(w, w');
    hide At, Own, Mapped, OnlyIn, Extends, Reach;
    if u != v {
      PlacesDiffer(root, u, v);
    } else {
      EntryFields(b.page, b.flags);
      EntryFields(b.page, flags);
    }
  }

  // ----- writing through the pages

  /** Where the walk for a page of the space ends. */
  lemma BackedWalk(m: Memory, last: nat, w: World, root: nat, v: nat, d: Space)
    requires WorldOk(m, last, w) && SpaceOk(m, w, root, d) && v in d
    ensures PagingAddr(m, root, v, 3).Some? && PageOf(Load(m, PagingAddr(m, root, v, 3).value)) == d[v].page
    ensures d[v].page % PAGE == 0 && d[v].page in Pages(d)
  {
    hide *;
    BackedIn(m, w, root, v, d);
    MappedEntry(m, last, w, root, v);
    EntryFields(d[v].page, d[v].flags);
    PageWhole(d[v].page);
  }

  lemma BackedIn(m: Memory, w: World, root: nat, v: nat, d: Space)
    requires SpaceOk(m, w, root, d) && v in d
    ensures Own(w, root, v) && IsPage(d[v].page) && IsFlags(d[v].flags) && d[v].page in Pages(d)
    ensures Mapped(m, w, At(root, v, 4)) == Some(d[v].page + d[v].flags)
  {
    assert Backed(m, w, root, v, d[v]);
    hide Own, Mapped, At, Reach, Present;
  }

  lemma PageWhole(p: nat)
    requires IsPage(p)
    ensures p % PAGE == 0
  {}

  /** Writing to a page of the space leaves tables and list alone. */
  lemma PageWritten(m: Memory, m': Memory, last: nat, w: World, root: nat, v: nat, d: Space)
    requires WorldOk(m, last, w) && SpaceOk(m, w, root, d) && v in d && OnlyIn(m, m', {d[v].page})
    ensures WorldOk(m', last, w) && SpaceOk(m', w, root, d) && MapsKept(m, w, m', w)
  {
    assert Backed(m, w, root, v, d[v]);
    WorldFrame(m, m', last, w, {d[v].page});
    hide WorldOk, Word, OnlyIn;
    forall x | EntryPos(x) ensures Mapped(m', w, x) == Mapped(m, w, x) { MapsFrame(m, m', w, x); }
    hide Mapped;
    forall u | u in d ensures Backed(m', w, root, u, d[u]) {
      assert Backed(m, w, root, u, d[u]);
      AtBounds(root, u, 4);
      hide At, Own, Reach, IsPage, IsFlags, Present;
    }
  }

  /** The len bytes at image are as before. */
  ghost predicate SameArea(m0: Memory, m: Memory, image: nat, len: nat) {
    forall s: nat {:trigger ByteAt(m, s)} :: image <= s < image + len ==> ByteAt(m, s) == ByteAt(m0, s)
  }

  /** Seen through the pages, the count bytes at dest are those of src, and the others are as before. */
  ghost predicate Filled(m0: Memory, m: Memory, d: Space, dest: nat, src: nat, count: nat) {
    forall a: nat {:trigger UserByte(m, d, a)} :: Floor(a) in d ==>
      UserByte(m, d, a) == if dest <= a < dest + count then ByteAt(m0, src + (a - dest)) else UserByte(m0, d, a)
  }

  ghost predicate Cleared(m0: Memory, m: Memory, d: Space, dest: nat, count: nat) {
    forall a: nat {:trigger UserByte(m, d, a)} :: Floor(a) in d ==>
      UserByte(m, d, a) == if dest <= a < dest + count then 0 else UserByte(m0, d, a)
  }

  lemma PageGap(p: nat, q: nat)
    requires p % PAGE == 0 && q % PAGE == 0 && p < q
    ensures p + PAGE <= q
  {
    assert p == PAGE * (p / PAGE) && q == PAGE * (q / PAGE);
  }

  /** Where in the page of v the byte at a lies. */
  lemma SameOffset(a: nat, x: nat, count: nat)
    requires x % PAGE + count <= PAGE
    ensures Floor(a) == Floor(x) ==>
      && (x <= a < x + count <==> x % PAGE <= a % PAGE < x % PAGE + count) && a - x == a % PAGE - x % PAGE
    ensures Floor(a) != Floor(x) ==> !(x <= a < x + count)
  {
    FloorFacts(a);
    FloorFacts(x);
    if x <= a < x + count { FloorIs(Floor(x), x % PAGE + (a - x)); }
  }

  /** The bytes of a piece within one page, seen in memory and seen through the page. */
  lemma PieceMeets(a: nat, x: nat, q: nat, p: nat, count: nat)
    requires p % PAGE == 0 && q % PAGE == 0 && (p == q <==> Floor(a) == Floor(x)) && x % PAGE + count <= PAGE
    ensures p + x % PAGE <= q + a % PAGE < p + x % PAGE + count <==> x <= a < x + count
    ensures x <= a < x + count ==> q + a % PAGE - (p + x % PAGE) == a - x
  {
    SameOffset(a, x, count);
    FloorFacts(a);
    if p < q { PageGap(p, q); }
    if q < p { PageGap(q, p); }
    hide Floor;
  }

  /** The next piece of a copy, within one page. */
  lemma CopyPiece(m0: Memory, m: Memory, m': Memory, w: World, root: nat, d: Space, dest: nat, src: nat, done: nat,
                  count: nat)
    requires SpaceOk(m, w, root, d) && Filled(m0, m, d, dest, src, done) && Floor(dest + done) in d
    requires (dest + done) % PAGE + count <= PAGE
    requires Copied(m, m', d[Floor(dest + done)].page + (dest + done) % PAGE, src + done, count)
    requires SameArea(m0, m, src, done + count)
    ensures Filled(m0, m', d, dest, src, done + count)
  {
    var x, v := dest + done, Floor(dest + done);
    hide SpaceOk, Filled, Copied, ByteAt, Floor, SameArea, UserByte, Backed;
    forall a: nat | Floor(a) in d
      ensures UserByte(m', d, a) == if dest <= a < dest + (done + count) then ByteAt(m0, src + (a - dest))
        else UserByte(m0, d, a)
    {
      DistinctBacking(m, w, root, d, v, Floor(a));
      CopyByte(m0, m, m', d, dest, src, done, count, a, d[v].page, d[Floor(a)].page);
    }
    assert Filled(m0, m', d, dest, src, done + count);
  }

  lemma CopyByte(m0: Memory, m: Memory, m': Memory, d: Space, dest: nat, src: nat, done: nat, count: nat, a: nat,
                 p: nat, q: nat)
    requires Filled(m0, m, d, dest, src, done) && SameArea(m0, m, src, done + count) && Floor(a) in d
    requires d[Floor(a)].page == q
    requires p % PAGE == 0 && q % PAGE == 0 && (p == q <==> Floor(a) == Floor(dest + done))
    requires (dest + done) % PAGE + count <= PAGE
    requires Copied(m, m', p + (dest + done) % PAGE, src + done, count)
    ensures UserByte(m', d, a) == if dest <= a < dest + (done + count) then ByteAt(m0, src + (a - dest))
      else UserByte(m0, d, a)
  {
    var x := dest + done;
    hide Filled, Copied, ByteAt, Floor, SameArea;
    PieceMeets(a, x, q, p, count);
    FilledAt(m0, m, d, dest, src, done, a);
    CopiedAt(m, m', p + x % PAGE, src + done, count, q + a % PAGE);
    if x <= a < x + count { AreaAt(m0, m, src, done + count, src + (a - dest)); }
  }

  lemma AreaAt(m0: Memory, m: Memory, image: nat, len: nat, s: nat)
    requires SameArea(m0, m, image, len) && image <= s < image + len
    ensures ByteAt(m, s) == ByteAt(m0, s)
  {
    hide ByteAt;
  }

  lemma FilledAt(m0: Memory, m: Memory, d: Space, dest: nat, src: nat, done: nat, a: nat)
    requires Filled(m0, m, d, dest, src, done) && Floor(a) in d
    ensures UserByte(m, d, a) == if dest <= a < dest + done then ByteAt(m0, src + (a - dest)) else UserByte(m0, d, a)
  {
    hide ByteAt;
  }

  lemma CopiedAt(m: Memory, m': Memory, to: nat, from: nat, count: nat, at: nat)
    requires Copied(m, m', to, from, count)
    ensures ByteAt(m', at) == if to <= at < to + count then ByteAt(m, from + (at - to)) else ByteAt(m, at)
  {
    hide ByteAt;
  }

  /** The next piece of a clearing, within one page. */
  lemma ClearPiece(m0: Memory, m: Memory, m': Memory, w: World, root: nat, d: Space, dest: nat, done: nat, count: nat)
    requires SpaceOk(m, w, root, d) && Cleared(m0, m, d, dest, done) && Floor(dest + done) in d
    requires (dest + done) % PAGE + count <= PAGE
    requires forall c: nat {:trigger ByteAt(m', c)} :: var to := d[Floor(dest + done)].page + (dest + done) % PAGE;
      ByteAt(m', c) == if to <= c < to + count then 0 else ByteAt(m, c)
    ensures Cleared(m0, m', d, dest, done + count)
  {
    var x, v := dest + done, Floor(dest + done);
    forall a: nat | Floor(a) in d
      ensures UserByte(m', d, a) == if dest <= a < dest + (done + count) then 0 else UserByte(m0, d, a)
    {
      DistinctBacking(m, w, root, d, v, Floor(a));
      PieceMeets(a, x, d[Floor(a)].page, d[v].page, count);
      hide ByteAt, SpaceOk, Floor;
      assert UserByte(m, d, a) == if dest <= a < dest + done then 0 else UserByte(m0, d, a);
    }
  }

  lemma DistinctBacking(m: Memory, w: World, root: nat, d: Space, u: nat, v: nat)
    requires SpaceOk(m, w, root, d) && u in d && v in d
    ensures d[u].page % PAGE == 0 && d[v].page % PAGE == 0 && (d[u].page == d[v].page <==> u == v)
  {
    assert Backed(m, w, root, u, d[u]) && Backed(m, w, root, v, d[v]);
    hide Backed;
    assert d[u].page % PAGE == 0 && d[v].page % PAGE == 0 by {
      BackingPage(m, w, root, u, d[u]); BackingPage(m, w, root, v, d[v]);
    }
  }

  lemma BackingPage(m: Memory, w: World, root: nat, v: nat, b: Backing)
    requires Backed(m, w, root, v, b)
    ensures b.page % PAGE == 0 && b.page !in Reach(w)
  {}

  // ----- since the loading began

  /** Pages that are not of the space are mapped as before. */
  ghost predicate OthersAlone(m0: Memory, w0: World, m: Memory, w: World, root: nat, d: Space) {
    forall x {:trigger Mapped(m, w, x)} ::
      EntryPos(x) && (forall v {:trigger d[v]} :: v in d ==> At(root, v, 4) != x) ==>
      Mapped(m, w, x) == Mapped(m0, w0, x)
  }

  /** Only pages that were tables or unused at first have been written. */
  ghost predicate Journey(m0: Memory, w0: World, m: Memory, w: World, root: nat, d: Space) {
    && OnlyIn(m0, m, Reach(w0)) && Reach(w) + Pages(d) <= Reach(w0) && OthersAlone(m0, w0, m, w, root, d)
    && w.foreign == w0.foreign && TablesBuilt(m0, w0, m, w)
  }

  lemma JourneyStart(m: Memory, w: World, root: nat)
    ensures Journey(m, w, m, w, root, map[]) && SpaceOk(m, w, root, map[])
  {}

  lemma JourneyMap(m0: Memory, w0: World, m: Memory, w: World, m': Memory, w': World, root: nat, v: nat, e: nat,
                   d: Space, d': Space, pages: set<nat>)
    requires Journey(m0, w0, m, w, root, d) && OnlyIn(m, m', pages) && pages <= Reach(w) + Pages(d)
    requires w'.foreign == w.foreign && TablesBuilt(m, w, m', w') && TabsOk(w) && TabsOk(w')
    requires MappedBut(m, w, m', w', At(root, v, 4), e) && v in d' && (forall u :: u in d ==> u in d')
    requires Reach(w') + Pages(d') <= Reach(w) + Pages(d)
    ensures Journey(m0, w0, m', w', root, d')
  {
    OnlyInMore(m0, m, m', Reach(w0), pages);
    hide OnlyIn, Reach, Pages, At, Mapped, TablesBuilt, TabsOk;
    BuiltTwice(m0, w0, m, w, m', w');
    forall x | EntryPos(x) && forall u :: u in d' ==> At(root, u, 4) != x
      ensures Mapped(m', w', x) == Mapped(m0, w0, x)
    {
      assert At(root, v, 4) != x;
      assert Mapped(m', w', x) == Mapped(m, w, x);
    }
  }

  lemma JourneyWrite(m0: Memory, w0: World, m: Memory, last: nat, w: World, m': Memory, root: nat, d: Space)
    requires Journey(m0, w0, m, w, root, d) && OnlyIn(m, m', Pages(d)) && MapsKept(m, w, m', w)
    requires WorldOk(m, last, w) && SpaceOk(m, w, root, d)
    ensures Journey(m0, w0, m', w, root, d)
  {
    OnlyInMore(m0, m, m', Reach(w0), Pages(d));
    ContentsAside(m, last, w, m', root, d);
    hide OnlyIn, Reach, Pages, At, Mapped, TablesBuilt, TabsOk, EntriesOk, ForeignOk, FreeOk, SpaceOk;
    BuiltTwice(m0, w0, m, w, m', w);
    forall x | EntryPos(x) && forall u :: u in d ==> At(root, u, 4) != x ensures Mapped(m', w, x) == Mapped(m0, w0, x) {
      assert Mapped(m', w, x) == Mapped(m, w, x);
    }
  }

  /** What is written to the pages of a space changes no table. */
  lemma ContentsAside(m: Memory, last: nat, w: World, m': Memory, root: nat, d: Space)
    requires WorldOk(m, last, w) && SpaceOk(m, w, root, d) && OnlyIn(m, m', Pages(d))
    ensures TablesBuilt(m, w, m', w)
  {
    hide WorldOk, OnlyIn, Own, Mapped, At, Word, Up, Down;
    forall v | v in d ensures d[v].page !in w.tabs.Values && d[v].page !in w.free {
      assert Backed(m, w, root, v, d[v]);
    }
    hide SpaceOk;
    WorldFrame(m, m', last, w, Pages(d));
  }

  /** d' has the pages of d as they were, and through them the same bytes are seen. */
  ghost predicate Kept(m: Memory, d: Space, m': Memory, d': Space) {
    && (forall v {:trigger v in d} {:trigger d'[v]} :: v in d ==> v in d' && d'[v] == d[v])
    && (forall a: nat {:trigger UserByte(m', d', a)} ::
        Floor(a) in d && Floor(a) in d' ==> UserByte(m', d', a) == UserByte(m, d, a))
  }

  /** What the tables say about an address of the space. */
  lemma SeenThrough(m: Memory, last: nat, w: World, root: nat, d: Space, a: nat)
    requires WorldOk(m, last, w) && SpaceOk(m, w, root, d) && Floor(a) in d
    ensures Translate(m, root, a) == Some(d[Floor(a)].page + d[Floor(a)].flags)
    ensures PageOf(d[Floor(a)].page + d[Floor(a)].flags) == d[Floor(a)].page
  {
    var v := Floor(a);
    assert Backed(m, w, root, v, d[v]);
    EntryFields(d[v].page, d[v].flags);
    FloorFacts(a);
    SamePlace(root, a, root, v);
    assert a / PAGE == v / PAGE by { PageDivides(a / PAGE, 0); }
    hide WorldOk, SpaceOk, Reach, Mapped, At;
    TranslateIs(m, w, root, v);
    SameIndices(root, a, root, v, 4);
    SameWalk(m, root, a, v, 3);
  }

  lemma {:induction false} SameWalk(m: Memory, root: nat, a: nat, v: nat, level: nat)
    requires forall j :: 0 <= j <= level ==> Index(a, j) == Index(v, j)
    ensures PagingAddr(m, root, a, level) == PagingAddr(m, root, v, level)
    decreases level
  {
    if level > 0 {
      hide Index;
      SameWalk(m, root, a, v, level - 1);
    }
  }
}
