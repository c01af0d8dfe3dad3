/**
 * One page at a time: mapping, mirroring, unmapping and protecting, and what each does to the counts.
 */
module PageSteps {
  import opened Basics
  import opened Words
  import opened PageTables
  import opened PageWorld
  import opened PageRange

  // ----- a fresh page

  lemma DataPresent()
    ensures Present(MAP_DATA) && IsFlags(MAP_DATA)
  {}

  lemma HeadPage(m: Memory, last: nat, w: World)
    requires WorldOk(m, last, w) && |w.free| > 0
    ensures IsPage(w.free[0]) && w.free[0] in w.free && w.free[0] !in Popped(w).free
  {
    PopChain(m, last, w);
    hide WorldOk;
  }

  // ----- a page that is in use already

  /** The entry of a mapped page, as the walk finds it. */
  lemma MappedEntry(m: Memory, last: nat, w: World, root: nat, va: nat)
    requires WorldOk(m, last, w) && Own(w, root, va)
    ensures var q := At(root, va, 4);
      match PagingAddr(m, root, va, 3)
      case None => Mapped(m, w, q).None?
      case Some(a) =>
        && At(root, va, 3) in w.tabs && a == w.tabs[At(root, va, 3)] + 8 * Index(va, 3)
        && (Present(Load(m, a)) ==> Mapped(m, w, q) == Some(Load(m, a)))
        && (!Present(Load(m, a)) ==> Mapped(m, w, q).None?)
  {
    WalkTellsOk(m, last, w, root, va, 3);
    DownUp(At(root, va, 3), Index(va, 3));
    hide WorldOk, Own;
  }

  /** A mapped page stays mapped when tables are added elsewhere. */
  lemma StillMapped(m: Memory, w: World, m': Memory, w': World, root: nat, va: nat)
    requires MapsKept(m, w, m', w')
    ensures Mapped(m', w', At(root, va, 4)) == Mapped(m, w, At(root, va, 4))
  {
    AtBounds(root, va, 4);
    hide At, Mapped;
  }

  // ----- taking an entry away

  /** Putting a page on the list changes no mapping. */
  lemma DropKeeps(m: Memory, last: nat, w: World, m1: Memory, w1: World, page: nat)
    requires WorldOk(m, last, w)
    requires (w1 == w && m1 == m) || (Loose(m, w, page) && w1 == Pushed(w, page) && OnlyIn(m, m1, {page}))
    ensures MapsKept(m, w, m1, w1)
  {
    if w1 == w && m1 == m {
      KeptSelf(m, w, {});
    } else {
      LooseApart(m, w, page);
      WorldFrame(m, m1, last, w, {page});
      hide WorldOk, Word, Loose, OnlyIn, Mapped;
      forall x | EntryPos(x) ensures Mapped(m1, w1, x) == Mapped(m, w, x) {
        MapsFrame(m, m1, w, x);
        SameTabsMaps(m1, w, w1, x);
      }
    }
  }

  lemma ButNothing(m: Memory, w: World, q: Pos)
    ensures Mapped(m, w, q).None? ==> MappedBut(m, w, m, w, q, 0)
  {}

  /** Of the pages not newly taken from the list, only page is counted once more. */
  ghost predicate RaisedOnce(w0: World, w: World, c0: map<nat, nat>, c: map<nat, nat>, page: nat) {
    forall p: nat {:trigger Count(c, p)} ::
      p !in w0.free || p in w.free ==> Count(c, p) == Count(c0, p) + if p == page then 1 else 0
  }

  lemma MirrorCounts(w0: World, w: World, c0: map<nat, nat>, c1: map<nat, nat>, c: map<nat, nat>, page: nat)
    requires CountsGrow(w0, w, c0, c1) && c == c1[page := Count(c1, page) + 1]
    ensures RaisedOnce(w0, w, c0, c, page)
  {
    forall p: nat | p !in w0.free || p in w.free ensures Count(c, p) == Count(c0, p) + if p == page then 1 else 0 {
      assert Count(c1, p) == Count(c0, p);
    }
  }

  // ----- ranges

  /** q is mapped, writable and not executable, to a page that came from the list of w0. */
  ghost predicate FreshAt(m: Memory, w: World, w0: World, q: Pos) {
    match Mapped(m, w, q)
    case None => false
    case Some(e) => e == PageOf(e) + MAP_DATA && PageOf(e) in w0.free && PageOf(e) !in w.free
  }

  ghost predicate FreshPages(m: Memory, w: World, w0: World, root: nat, address: nat, n: nat) {
    forall k: nat {:trigger PageAt(root, address, k)} :: k < n ==> FreshAt(m, w, w0, PageAt(root, address, k))
  }

  /** The page mapped at q; 0 if none. */
  ghost function PageMapped(m: Memory, w: World, q: Pos): nat {
    match Mapped(m, w, q) case None => 0 case Some(e) => PageOf(e)
  }

  /** Different places of the range have different pages. */
  ghost predicate PagesApart(m: Memory, w: World, root: nat, address: nat, n: nat) {
    forall j: nat, k: nat {:trigger PageAt(root, address, j), PageAt(root, address, k)} ::
      j < n && k < n && PageAt(root, address, j) != PageAt(root, address, k) ==>
        PageMapped(m, w, PageAt(root, address, j)) != PageMapped(m, w, PageAt(root, address, k))
  }

  lemma FreshStep(m1: Memory, w1: World, m: Memory, w: World, w0: World, root: nat, address: nat, k: nat, page: nat)
    requires FreshPages(m1, w1, w0, root, address, k) && PagesApart(m1, w1, root, address, k)
    requires MappedBut(m1, w1, m, w, PageAt(root, address, k), page + MAP_DATA) && Present(page + MAP_DATA)
    requires PageOf(page + MAP_DATA) == page
    requires page in w1.free && page !in w.free && Extends(w0, w1) && Extends(w1, w)
    ensures FreshPages(m, w, w0, root, address, k + 1) && PagesApart(m, w, root, address, k + 1)
  {
    hide Mapped, PageOf, PageAt, Reach;
    SuffixIn(w0, w1);
    SuffixIn(w1, w);
    forall j: nat | j < k + 1 ensures
      && Mapped(m, w, PageAt(root, address, j)) == (if PageAt(root, address, j) == PageAt(root, address, k)
        then Some(page + MAP_DATA) else Mapped(m1, w1, PageAt(root, address, j)))
      && FreshAt(m, w, w0, PageAt(root, address, j))
    {
      PageAtEntry(root, address, j);
      assert j < k ==> FreshAt(m1, w1, w0, PageAt(root, address, j));
    }
    forall i: nat, j: nat | i < k + 1 && j < k + 1 && PageAt(root, address, i) != PageAt(root, address, j)
      ensures PageMapped(m, w, PageAt(root, address, i)) != PageMapped(m, w, PageAt(root, address, j))
    {
      assert i < k ==> FreshAt(m1, w1, w0, PageAt(root, address, i));
      assert j < k ==> FreshAt(m1, w1, w0, PageAt(root, address, j));
    }
  }

  lemma PageAtEntry(root: nat, address: nat, k: nat)
    ensures EntryPos(PageAt(root, address, k))
  {
    AtBounds(root, address + PAGE * k, 4);
  }

  lemma SuffixIn(w: World, w': World)
    requires Extends(w, w')
    ensures forall f :: f in w'.free ==> f in w.free
  {
    hide Reach;
  }

  /** Every page of the range is counted once. */
  ghost predicate CountedOnce(m: Memory, w: World, c: map<nat, nat>, root: nat, address: nat, n: nat) {
    forall k: nat {:trigger PageAt(root, address, k)} ::
      k < n ==> Count(c, PageMapped(m, w, PageAt(root, address, k))) == 1
  }

  /** Counts through two steps that take pages off the list. */
  lemma GrowTwice(w0: World, w1: World, w: World, c0: map<nat, nat>, c1: map<nat, nat>, c: map<nat, nat>)
    requires CountsGrow(w0, w1, c0, c1) && CountsGrow(w1, w, c1, c) && Extends(w0, w1) && Extends(w1, w)
    ensures CountsGrow(w0, w, c0, c)
  {
    SuffixIn(w0, w1);
    SuffixIn(w1, w);
    hide Extends, Count;
    forall p: nat | p !in w0.free || p in w.free ensures Count(c, p) == Count(c0, p) {
      assert Count(c1, p) == Count(c0, p);
    }
  }

  lemma OnceStep(m1: Memory, w1: World, c1: map<nat, nat>, m: Memory, w: World, c: map<nat, nat>, w0: World, root: nat,
                 address: nat, k: nat, page: nat)
    requires CountedOnce(m1, w1, c1, root, address, k) && FreshPages(m1, w1, w0, root, address, k)
    requires CountsGrow(w1, w, c1, c) && Count(c, page) == 1
    requires MappedBut(m1, w1, m, w, PageAt(root, address, k), page + MAP_DATA) && Present(page + MAP_DATA)
    requires PageOf(page + MAP_DATA) == page
    ensures CountedOnce(m, w, c, root, address, k + 1)
  {
    hide Mapped, PageOf, PageAt, Count;
    forall j: nat | j < k + 1 ensures Count(c, PageMapped(m, w, PageAt(root, address, j))) == 1 {
      PageAtEntry(root, address, j);
      assert Mapped(m, w, PageAt(root, address, j)) == if PageAt(root, address, j) == PageAt(root, address, k)
        then Some(page + MAP_DATA) else Mapped(m1, w1, PageAt(root, address, j));
      if j < k {
        assert FreshAt(m1, w1, w0, PageAt(root, address, j));
        assert Count(c1, PageMapped(m1, w1, PageAt(root, address, j))) == 1;
      }
    }
  }

  // ----- unmapping a range, counted

  /** Every page is counted less by the number of times it was mapped in the range. */
  ghost predicate LoweredBy(m0: Memory, w0: World, c0: map<nat, nat>, c: map<nat, nat>, root: nat, address: nat, n: nat)
    {
    forall p: nat {:trigger Count(c, p)} :: Count(c, p) + Times(m0, w0, root, address, n, p) == Count(c0, p)
  }

  /** The list gained exactly the pages that are no longer counted. */
  ghost predicate FreedExactly(w0: World, c0: map<nat, nat>, w: World, c: map<nat, nat>) {
    && (forall p: nat {:trigger p in w.free} :: p in w.free <==> p in w0.free || (Count(c0, p) > 0 && Count(c, p) == 0))
    && (forall p: nat {:trigger Count(c, p)} :: Count(c, p) <= Count(c0, p))
  }

  /** One page dropped, where it was mapped. */
  ghost predicate DroppedAtPlace(x: Option<nat>, w1: World, c1: map<nat, nat>, w: World, c: map<nat, nat>) {
    match x
    case None => w == w1 && c == c1
    case Some(e) =>
      && Count(c1, PageOf(e)) > 0 && c == Lowered(c1, PageOf(e))
      && w == (if Count(c1, PageOf(e)) == 1 then Pushed(w1, PageOf(e)) else w1)
  }

  lemma LoweredCount(c: map<nat, nat>, page: nat, p: nat)
    ensures Count(Lowered(c, page), p) == if p == page && Count(c, p) > 0 then Count(c, p) - 1 else Count(c, p)
  {}

  lemma FreedStep(w0: World, c0: map<nat, nat>, w1: World, c1: map<nat, nat>, w: World, c: map<nat, nat>,
                  x: Option<nat>)
    requires FreedExactly(w0, c0, w1, c1) && DroppedAtPlace(x, w1, c1, w, c)
    ensures FreedExactly(w0, c0, w, c) && |w.free| >= |w1.free|
  {
    if x.Some? {
      var page := PageOf(x.value);
      hide PageOf;
      forall p: nat ensures p in w.free <==> p in w1.free || (p == page && Count(c1, page) == 1) {}
      forall p: nat
        ensures Count(c, p) <= Count(c1, p) && (p in w.free <==> p in w0.free || (Count(c0, p) > 0 && Count(c, p) == 0))
      {
        LoweredCount(c1, page, p);
        assert Count(c1, p) <= Count(c0, p);
        assert p in w1.free <==> p in w0.free || (Count(c0, p) > 0 && Count(c1, p) == 0);
        hide Lowered, Count;
      }
      hide Lowered, Count;
      forall p: nat ensures Count(c, p) <= Count(c0, p) { assert Count(c1, p) <= Count(c0, p); }
    }
  }

  lemma LoweredStep(m0: Memory, w0: World, c0: map<nat, nat>, m1: Memory, w1: World, c1: map<nat, nat>, w: World,
                    c: map<nat, nat>, root: nat, address: nat, k: nat)
    requires LoweredBy(m0, w0, c0, c1, root, address, k) && OthersKept(m0, w0, m1, w1, root, address, k)
    requires DroppedAtPlace(Mapped(m1, w1, PageAt(root, address, k)), w1, c1, w, c) && address % PAGE == 0
    requires k < 0x10_0000_0000
    ensures LoweredBy(m0, w0, c0, c, root, address, k + 1)
  {
    var q := PageAt(root, address, k);
    PageAtEntry(root, address, k);
    forall j: nat | j < k ensures PageAt(root, address, j) != q { PagesDiffer(root, address, j, k); }
    assert !Covers(root, address, k, q);
    assert Mapped(m1, w1, q) == Mapped(m0, w0, q);
    LoweredMore(m0, w0, c0, c1, w1, w, c, root, address, k, Mapped(m0, w0, q));
  }

  lemma LoweredMore(m0: Memory, w0: World, c0: map<nat, nat>, c1: map<nat, nat>, w1: World, w: World, c: map<nat, nat>,
                    root: nat, address: nat, k: nat, x: Option<nat>)
    requires LoweredBy(m0, w0, c0, c1, root, address, k) && x == Mapped(m0, w0, PageAt(root, address, k))
    requires DroppedAtPlace(x, w1, c1, w, c)
    ensures LoweredBy(m0, w0, c0, c, root, address, k + 1)
  {
    hide PageAt, Mapped, PageOf, Count, Lowered;
    forall p: nat ensures Count(c, p) + Times(m0, w0, root, address, k + 1, p) == Count(c0, p) {
      assert Count(c1, p) + Times(m0, w0, root, address, k, p) == Count(c0, p);
      if x.Some? { LoweredCount(c1, PageOf(x.value), p); }
    }
  }

  lemma LoweredStart(m: Memory, w: World, c: map<nat, nat>, root: nat, address: nat)
    requires forall f :: f in w.free ==> Count(c, f) == 0
    ensures LoweredBy(m, w, c, c, root, address, 0) && FreedExactly(w, c, w, c)
    ensures CountedOnce(m, w, c, root, address, 0)
  {
    assert forall p :: Times(m, w, root, address, 0, p) == 0;
  }

  // ----- mirroring a range

  /** The first n pages of one range are mapped as those of the other were. */
  ghost predicate Mirrors(m0: Memory, w0: World, m: Memory, w: World, root: nat, address: nat, sroot: nat,
                          saddress: nat, n: nat) {
    forall k: nat {:trigger PageAt(root, address, k)} {:trigger PageAt(sroot, saddress, k)} :: k < n ==>
      Mapped(m, w, PageAt(root, address, k)) == Mapped(m0, w0, PageAt(sroot, saddress, k))
  }

  /** How often page is mapped in a range. */
  ghost function Times(m: Memory, w: World, root: nat, address: nat, n: nat, page: nat): nat {
    if n == 0 then 0 else
    var x := Mapped(m, w, PageAt(root, address, n - 1));
    Times(m, w, root, address, n - 1, page) + (if x.Some? && PageOf(x.value) == page then 1 else 0)
  }

  /** Pages not newly taken from the list are counted once more for every time they are mapped in the source range. */
  ghost predicate RaisedBy(m0: Memory, w0: World, w: World, c0: map<nat, nat>, c: map<nat, nat>, sroot: nat,
                           saddress: nat, n: nat) {
    forall p: nat {:trigger Count(c, p)} ::
      p !in w0.free || p in w.free ==> Count(c, p) == Count(c0, p) + Times(m0, w0, sroot, saddress, n, p)
  }

  lemma RaisedStep(m0: Memory, w0: World, w1: World, w: World, c0: map<nat, nat>, c1: map<nat, nat>, c: map<nat, nat>,
                   sroot: nat, saddress: nat, k: nat, e: nat)
    requires RaisedBy(m0, w0, w1, c0, c1, sroot, saddress, k) && RaisedOnce(w1, w, c1, c, PageOf(e)) && Extends(w0, w1)
    requires Extends(w1, w)
    requires Mapped(m0, w0, PageAt(sroot, saddress, k)) == Some(e)
    ensures RaisedBy(m0, w0, w, c0, c, sroot, saddress, k + 1)
  {
    SuffixIn(w0, w1);
    SuffixIn(w1, w);
    hide Mapped, PageOf, PageAt, Extends, Count;
    forall p: nat | p !in w0.free || p in w.free
      ensures Count(c, p) == Count(c0, p) + Times(m0, w0, sroot, saddress, k + 1, p)
    {
      assert Count(c1, p) == Count(c0, p) + Times(m0, w0, sroot, saddress, k, p);
    }
  }

  lemma RaisedNone(m: Memory, w: World, c: map<nat, nat>, sroot: nat, saddress: nat)
    ensures RaisedBy(m, w, w, c, c, sroot, saddress, 0)
  {
    assert forall p :: Times(m, w, sroot, saddress, 0, p) == 0;
  }

  /** A place mapped before is not covered by the target range, none of which was mapped. */
  lemma SourceApart(m: Memory, w: World, root: nat, address: nat, n: nat, q: Pos)
    requires Mapped(m, w, q).Some?
    requires forall k: nat {:trigger PageAt(root, address, k)} :: k < n ==> Mapped(m, w, PageAt(root, address, k)).None?
    ensures forall k: nat :: k <= n ==> !Covers(root, address, k, q)
  {
    hide Mapped, PageAt;
  }

  lemma MirrorsStep(m0: Memory, w0: World, m1: Memory, w1: World, m: Memory, w: World, root: nat, address: nat,
                    sroot: nat, saddress: nat, k: nat, e: nat)
    requires Mirrors(m0, w0, m1, w1, root, address, sroot, saddress, k) && address % PAGE == 0 && k < 0x10_0000_0000
    requires MappedBut(m1, w1, m, w, PageAt(root, address, k), e) && Present(e)
    requires Mapped(m0, w0, PageAt(sroot, saddress, k)) == Some(e)
    ensures Mirrors(m0, w0, m, w, root, address, sroot, saddress, k + 1)
  {
    hide Mapped, PageAt;
    forall j: nat | j < k + 1
      ensures Mapped(m, w, PageAt(root, address, j)) == Mapped(m0, w0, PageAt(sroot, saddress, j))
    {
      PageAtEntry(root, address, j);
      if j < k { PagesDiffer(root, address, j, k); }
    }
  }

  // ----- unmapping and protecting a range

  ghost predicate AllUnmapped(m: Memory, w: World, root: nat, address: nat, n: nat) {
    forall k: nat {:trigger PageAt(root, address, k)} :: k < n ==> Mapped(m, w, PageAt(root, address, k)).None?
  }

  lemma UnmapStep(m1: Memory, w1: World, m: Memory, w: World, root: nat, address: nat, k: nat)
    requires AllUnmapped(m1, w1, root, address, k) && MappedBut(m1, w1, m, w, PageAt(root, address, k), 0)
    ensures AllUnmapped(m, w, root, address, k + 1)
  {
    hide Mapped, PageAt;
    forall j: nat | j < k + 1 ensures Mapped(m, w, PageAt(root, address, j)).None? { PageAtEntry(root, address, j); }
  }

  /** The entry with other flags, or none if the flags say absent. */
  ghost function Reflagged(x: Option<nat>, flags: nat): Option<nat> {
    match x
    case None => None
    case Some(e) => if Present(PageOf(e) + flags) then Some(PageOf(e) + flags) else None
  }

  ghost predicate AllReflagged(m0: Memory, m: Memory, w: World, root: nat, address: nat, n: nat, flags: nat) {
    forall k: nat {:trigger PageAt(root, address, k)} :: k < n ==>
      Mapped(m, w, PageAt(root, address, k)) == Reflagged(Mapped(m0, w, PageAt(root, address, k)), flags)
  }

  lemma ReflagStep(m0: Memory, m1: Memory, m: Memory, w: World, root: nat, address: nat, k: nat, flags: nat)
    requires AllReflagged(m0, m1, w, root, address, k, flags) && OthersKept(m0, w, m1, w, root, address, k)
    requires IsFlags(flags)
    requires match Mapped(m1, w, PageAt(root, address, k))
      case None => m == m1
      case Some(e) => MappedBut(m1, w, m, w, PageAt(root, address, k), PageOf(e) + flags)
    ensures AllReflagged(m0, m, w, root, address, k + 1, flags) && OthersKept(m0, w, m, w, root, address, k + 1)
  {
    var q := PageAt(root, address, k);
    PageAtEntry(root, address, k);
    match Mapped(m1, w, q) {
      case None => OthersSkip(m0, w, m, w, root, address, k);
      case Some(e) => OthersStep(m0, w, m1, w, m, w, root, address, k, PageOf(e) + flags);
    }
    ReflagTwice(Mapped(m0, w, q), flags);
    hide Mapped, PageAt, Reflagged, PageOf;
    forall j: nat | j < k + 1
      ensures Mapped(m, w, PageAt(root, address, j)) == Reflagged(Mapped(m0, w, PageAt(root, address, j)), flags)
    {
      PageAtEntry(root, address, j);
      ReflagAt(m0, m1, m, w, root, address, k, j, flags);
    }
  }

  lemma ReflagAt(m0: Memory, m1: Memory, m: Memory, w: World, root: nat, address: nat, k: nat, j: nat, flags: nat)
    requires AllReflagged(m0, m1, w, root, address, k, flags) && OthersKept(m0, w, m1, w, root, address, k) && j < k + 1
    requires match Mapped(m1, w, PageAt(root, address, k))
      case None => m == m1
      case Some(e) => MappedBut(m1, w, m, w, PageAt(root, address, k), PageOf(e) + flags)
    requires Reflagged(Reflagged(Mapped(m0, w, PageAt(root, address, k)), flags), flags) ==
      Reflagged(Mapped(m0, w, PageAt(root, address, k)), flags)
    ensures Mapped(m, w, PageAt(root, address, j)) == Reflagged(Mapped(m0, w, PageAt(root, address, j)), flags)
  {
    PageAtEntry(root, address, j);
    PageAtEntry(root, address, k);
    hide Mapped, PageAt, PageOf;
    if Covers(root, address, k, PageAt(root, address, k)) {
      var i: nat :| i < k && PageAt(root, address, i) == PageAt(root, address, k);
      assert Mapped(m1, w, PageAt(root, address, k)) == Reflagged(Mapped(m0, w, PageAt(root, address, k)), flags);
    }
  }

  /** Setting the same flags twice is setting them once. */
  lemma ReflagTwice(x: Option<nat>, flags: nat)
    requires IsFlags(flags)
    ensures Reflagged(Reflagged(x, flags), flags) == Reflagged(x, flags)
  {
    if x.Some? {
      PageAligned(x.value);
      EntryFields(PageOf(x.value), flags);
    }
  }

  // ----- checking a range

  function TransAt(m: Memory, root: nat, address: nat, k: nat): Option<nat> {
    Translate(m, root, address + PAGE * k)
  }

  lemma TransIsMapped(m: Memory, last: nat, w: World, root: nat, address: nat, n: nat)
    requires WorldOk(m, last, w) && OwnPages(w, root, address, n)
    ensures forall k: nat {:trigger PageAt(root, address, k)} {:trigger TransAt(m, root, address, k)} ::
      k < n ==> TransAt(m, root, address, k) == Mapped(m, w, PageAt(root, address, k))
  {
    forall k: nat | k < n ensures TransAt(m, root, address, k) == Mapped(m, w, PageAt(root, address, k)) {
      assert PageAt(root, address, k) == At(root, address + PAGE * k, 4);
      assert Own(w, root, address + PAGE * k);
      TranslateIs(m, w, root, address + PAGE * k);
      hide *;
    }
  }

  // ----- where the loops start and go on

  lemma RangeStart(m: Memory, w: World, root: nat, address: nat)
    ensures FreshPages(m, w, w, root, address, 0) && PagesApart(m, w, root, address, 0)
    ensures OthersKept(m, w, m, w, root, address, 0) && Extends(w, w) && AllUnmapped(m, w, root, address, 0)
  {}

  lemma ReflagNone(m: Memory, w: World, root: nat, address: nat, flags: nat)
    ensures AllReflagged(m, m, w, root, address, 0, flags)
  {}

  lemma MirrorStart(m: Memory, w: World, c: map<nat, nat>, root: nat, address: nat, sroot: nat, saddress: nat)
    ensures Mirrors(m, w, m, w, root, address, sroot, saddress, 0) && RaisedBy(m, w, w, c, c, sroot, saddress, 0)
  {
    RaisedNone(m, w, c, sroot, saddress);
  }

  lemma PageAtIs(root: nat, address: nat, k: nat)
    ensures PageAt(root, address, k) == At(root, address + PAGE * k, 4)
  {}

  /** What the guards of a mirror request say about the places. */
  lemma GuardsTell(m: Memory, last: nat, w: World, root: nat, address: nat, sroot: nat, saddress: nat, n: nat)
    requires WorldOk(m, last, w) && OwnPages(w, root, address, n) && OwnPages(w, sroot, saddress, n)
    requires forall k: nat :: k < n ==> TransAt(m, root, address, k).None? && TransAt(m, sroot, saddress, k).Some?
    ensures AllUnmapped(m, w, root, address, n) && AllMapped(m, w, sroot, saddress, n)
  {
    TransIsMapped(m, last, w, root, address, n);
    TransIsMapped(m, last, w, sroot, saddress, n);
    hide TransAt, Mapped, PageAt, WorldOk, OwnPages;
    forall k: nat | k < n
      ensures Mapped(m, w, PageAt(root, address, k)).None? && Mapped(m, w, PageAt(sroot, saddress, k)).Some?
    {
      assert TransAt(m, root, address, k).None? && TransAt(m, sroot, saddress, k).Some?;
    }
  }

  ghost predicate AllMapped(m: Memory, w: World, root: nat, address: nat, n: nat) {
    forall k: nat {:trigger PageAt(root, address, k)} :: k < n ==> Mapped(m, w, PageAt(root, address, k)).Some?
  }

  /** The source of the next page is as it was. */
  lemma SourceKept(m0: Memory, w0: World, m: Memory, w: World, root: nat, address: nat, sroot: nat, saddress: nat,
                   n: nat, k: nat)
    requires AllUnmapped(m0, w0, root, address, n) && AllMapped(m0, w0, sroot, saddress, n) && k < n
    requires OthersKept(m0, w0, m, w, root, address, k)
    ensures Mapped(m0, w0, PageAt(sroot, saddress, k)).Some?
    ensures Mapped(m, w, PageAt(sroot, saddress, k)) == Mapped(m0, w0, PageAt(sroot, saddress, k))
  {
    hide Mapped, PageAt;
    PageAtEntry(sroot, saddress, k);
    SourceApart(m0, w0, root, address, n, PageAt(sroot, saddress, k));
  }

  lemma MappedPresent(m: Memory, w: World, q: Pos)
    ensures Mapped(m, w, q).Some? ==> Present(Mapped(m, w, q).value)
  {}
}
