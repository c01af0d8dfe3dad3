/**
 * What page-table operations mean for translation: one page changes, all others, under every root, stay.
 */
module PageFacts {
  import opened Basics
  import opened Words
  import opened PageTables
  import opened PageWorld
  import opened PageRange
  import opened PageSteps

  /** Mapping one page changes the translation of that page number under that root and of nothing else. */
  lemma OneTranslation(m: Memory, last: nat, w: World, m': Memory, last': nat, w': World, root: nat, va: nat, e: nat,
                       root': nat, va': nat)
    requires WorldOk(m, last, w) && WorldOk(m', last', w') && Extends(w, w') && Own(w, root', va')
    requires MappedBut(m, w, m', w', At(root, va, 4), e)
    ensures Translate(m', root', va') ==
      if root' == root && PageNumber(va') == PageNumber(va) then (if Present(e) then Some(e) else None)
        else Translate(m, root', va')
  {
    OwnExtends(w, w', root', va');
    TranslateIs(m, w, root', va');
    TranslateIs(m', w', root', va');
    SamePlace(root, va, root', va');
    AtBounds(root', va', 4);
    hide WorldOk, Extends, Own, Mapped, At, PageNumber, Translate;
  }

  /** Operations on a range leave the translation of every page outside the range alone. */
  lemma OtherTranslations(m: Memory, last: nat, w: World, m': Memory, last': nat, w': World, root: nat, address: nat,
                          n: nat, root': nat, va': nat)
    requires WorldOk(m, last, w) && WorldOk(m', last', w') && Own(w, root', va')
    requires w'.foreign == w.foreign && forall p :: p in w.tabs ==> p in w'.tabs
    requires OthersKept(m, w, m', w', root, address, n) && !Covers(root, address, n, At(root', va', 4))
    ensures Translate(m', root', va') == Translate(m, root', va')
  {
    OwnGrows(w, w, w', root', va');
    TranslateIs(m, w, root', va');
    TranslateIs(m', w', root', va');
    AtBounds(root', va', 4);
    hide WorldOk, Own, Mapped, At, Translate;
  }

  /** The address is seen as data, on a page that was unused. */
  ghost predicate SeenFresh(m: Memory, root: nat, va: nat, w0: World) {
    Guarded(m, root, va, false) && PageOf(Translate(m, root, va).value) in w0.free
  }

  /** The pages of a fresh range are seen as data. */
  lemma FreshSeen(m: Memory, last: nat, w: World, w0: World, root: nat, address: nat, n: nat, va: nat)
    requires WorldOk(m, last, w) && FreshPages(m, w, w0, root, address, n) && OwnPages(w, root, address, n)
    requires address % PAGE == 0 && address <= va < address + PAGE * n
    ensures SeenFresh(m, root, va, w0)
  {
    hide WorldOk, FreshPages, OwnPages, Own, Mapped, At, PageAt;
    var k := PageOfRange(root, address, n, va);
    OwnPage(w, root, address, n, k);
    SamePlace(root, address + PAGE * k, root, va);
    AlsoOwn(w, root, address + PAGE * k, va);
    TranslateNow(m, last, w, root, va);
    FreshOne(m, w, w0, root, address, n, k);
    DataBits(Mapped(m, w, At(root, va, 4)).value);
  }

  lemma PageOfRange(root: nat, address: nat, n: nat, va: nat) returns (k: nat)
    requires address % PAGE == 0 && address <= va < address + PAGE * n
    ensures k < n && PageNumber(address + PAGE * k) == PageNumber(va)
    ensures PageAt(root, address, k) == At(root, address + PAGE * k, 4)
  {
    var b, x := address / PAGE, va / PAGE;
    k := x - b;
    assert address == PAGE * b && va == PAGE * x + va % PAGE;
    PageDivides(b + k, 0);
  }

  lemma OwnPage(w: World, root: nat, address: nat, n: nat, k: nat)
    requires OwnPages(w, root, address, n) && k < n
    ensures Own(w, root, address + PAGE * k)
  {
    hide Own, At;
    var x := PageAt(root, address, k);
  }

  lemma FreshOne(m: Memory, w: World, w0: World, root: nat, address: nat, n: nat, k: nat)
    requires FreshPages(m, w, w0, root, address, n) && k < n
    ensures FreshAt(m, w, w0, PageAt(root, address, k))
  {}

  lemma TranslateNow(m: Memory, last: nat, w: World, root: nat, va: nat)
    requires WorldOk(m, last, w) && Own(w, root, va)
    ensures Translate(m, root, va) == Mapped(m, w, At(root, va, 4))
  {
    TranslateIs(m, w, root, va);
  }

  /** Addresses of one page have the same walk. */
  lemma AlsoOwn(w: World, root: nat, u: nat, v: nat)
    requires At(root, u, 4) == At(root, v, 4) && Own(w, root, u)
    ensures Own(w, root, v)
  {
    SameIndices(root, u, root, v, 4);
    hide Index;
    forall n | 0 < n <= 3 ensures At(root, v, n) == At(root, u, n) { SamePath(root, u, v, n); }
    hide At;
  }

  /** The walk for va reads no word of these pages. */
  ghost predicate WalksApart(m: Memory, root: nat, va: nat, pages: set<nat>) {
    forall j {:trigger PagingAddr(m, root, va, j)} ::
      0 <= j <= 3 && PagingAddr(m, root, va, j).Some? ==> !InPages(PagingAddr(m, root, va, j).value, pages)
  }

  /** A root that shares no table with the pages written translates as before. */
  lemma StrangersKept(m: Memory, m': Memory, w: World, root: nat, va: nat)
    requires OnlyIn(m, m', Reach(w)) && WalksApart(m, root, va, Reach(w))
    ensures Translate(m', root, va) == Translate(m, root, va)
  {
    hide Load, Reach, InPages;
    forall j | 0 <= j < 3 && PagingAddr(m, root, va, j).Some?
      ensures Load(m', PagingAddr(m, root, va, j).value) == Load(m, PagingAddr(m, root, va, j).value) {}
    WalkFrame(m, m', root, va, 3);
    if PagingAddr(m, root, va, 3).Some? {
      assert Load(m', PagingAddr(m, root, va, 3).value) == Load(m, PagingAddr(m, root, va, 3).value);
    }
  }

}
