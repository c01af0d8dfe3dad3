/**
 * The page-table code of the kernel and of its memory manager, working on physical memory.
 */
module Paging {
  import opened Basics
  import opened Words
  import opened PageTables
  import opened PageWorld
  import opened PageRange
  import opened PageFacts
  import opened PageSteps
  import opened PageVisits
  import opened PageOwed
  import opened PageLedger
  import opened PageBooks
  import opened PageRoots
  import opened PageRuns

  class Pager {
    var mem: Memory
    var lastUnused: nat
    var rootMap: map<nat, nat>
    var pageCount: map<nat, nat>
    var rootCount: map<nat, nat>
    var nextId: nat

    ghost var w: World
    ghost var ids: seq<nat>
    ghost var base: map<nat, nat>
    ghost var lost: multiset<nat>
    ghost var pool: set<nat>

    ghost predicate Tables()
      reads this
    {
      WorldOk(mem, lastUnused, w)
    }

    // ----- unused pages

    /** Puts a page in front of the list. The tables stay well formed if nothing leads to the page. */
    method KmemUnuse(page: nat)
      modifies this`mem, this`lastUnused, this`w
      ensures w == Pushed(old(w), page) && lastUnused == page && mem == old(mem)[page := old(lastUnused)]
      ensures old(Tables() && Loose(mem, w, page)) ==> Tables() && OnlyIn(old(mem), mem, {page})
    {
      hide WorldOk, Loose;
      if Tables() && Loose(mem, w, page) {
        PushOk(mem, lastUnused, w, page);
        LoosePage(mem, w, page);
        FirstWord(page);
      }
      mem := mem[page := lastUnused];
      lastUnused := page;
      w := Pushed(w, page);
    }

    /** Takes the first page off the list; there must be one. */
    method KmemGetPage() returns (ret: nat)
      requires Tables() && |w.free| > 0
      modifies this`lastUnused, this`w
      ensures Tables() && w == Popped(old(w)) && ret == old(w).free[0] && Loose(mem, w, ret)
      ensures ret == old(lastUnused) && lastUnused == Load(mem, ret)
    {
      hide WorldOk, Loose;
      PopOk(mem, lastUnused, w);
      ret := lastUnused;
      lastUnused := Load(mem, ret);
      w := Popped(w);
    }

    /** Clears the 512 words of a page. */
    method ClearTable(t: nat)
      requires t % PAGE == 0
      modifies this`mem
      ensures OnlyIn(old(mem), mem, {t}) && forall j :: 0 <= j < 512 ==> Load(mem, t + 8 * j) == 0
    {
      ghost var m0 := mem;
      hide OnlyIn;
      KeptSelf(mem, w, {t});
      for i := 0 to 512
        invariant OnlyIn(m0, mem, {t}) && forall j :: 0 <= j < i ==> Load(mem, t + 8 * j) == 0
      {
        OnlyInWrite(m0, mem, {t}, t, i, 0);
        mem := mem[t + 8 * i := 0];
      }
    }

    // ----- walking and building

    /** Takes a page, clears it, and links it as the missing table below the entry at pa. */
    method InstallTable(pa: nat, ghost p: Pos, ghost i: nat) returns (ntable: nat)
      requires Tables() && |w.free| > 0
      requires p in w.tabs && |p.path| < 3 && i < 512 && Down(p, i) !in w.tabs && Down(p, i) !in w.foreign
      requires pa == w.tabs[p] + 8 * i
      modifies this`mem, this`lastUnused, this`w
      ensures Tables() && Linked(old(mem), old(w), mem, w, p, i, ntable)
      ensures ntable == old(w).free[0] && w == AddTable(Popped(old(w)), Down(p, i), ntable)
      ensures MapsKept(old(mem), old(w), mem, w) && OnlyIn(old(mem), mem, RootReach(old(w), p.root))
    {
      hide WorldOk, Loose, OnlyIn, MapsKept, Reach, WordsBut, RootReach;
      ghost var m, last, w0 := mem, lastUnused, w;
      ntable := KmemGetPage();
      LoosePage(mem, w, ntable);
      ClearTable(ntable);
      TableAdded(m, last, w0, mem, p, i);
      StillZero(m, last, w0, mem, p, i, ntable, ntable + MAP_DEFAULT);
      RootWritten(m, last, w0, mem, p, i, ntable + MAP_DEFAULT);
      mem := mem[pa := ntable + MAP_DEFAULT];
      w := AddTable(w, Down(p, i), ntable);
    }

    /** The address of the entry for va at the given level, with the tables on the way built where they are missing. */
    method KmemPagingAddrCreate(root: nat, va: nat, level: nat) returns (addr: nat)
      requires Tables() && OwnTo(w, root, va, level) && level <= 3
      requires (PagingAddr(mem, root, va, level).Some? || level <= |w.free|)
      modifies this`mem, this`lastUnused, this`w
      ensures old(PagingAddr(mem, root, va, level)).Some? ==> unchanged(this)
      ensures Tables() && Grown(old(w), w, root, va) && |w.free| + level >= |old(w).free|
      ensures At(root, va, level) in w.tabs && addr == w.tabs[At(root, va, level)] + 8 * Index(va, level)
      ensures MapsKept(old(mem), old(w), mem, w) && OnlyIn(old(mem), mem, Reach(old(w)))
      ensures OnlyIn(old(mem), mem, RootReach(old(w), root)) && RootReach(w, root) == RootReach(old(w), root)
      ensures TargetsKept(old(mem), old(w), mem, w) && Shallow(old(w), w, level)
      ensures TablesBuilt(old(mem), old(w), mem, w)
    {
      hide WorldOk, OnlyIn, MapsKept, Reach, Grown, OwnTo, At, Index, RootReach, Linked, TargetsKept, Shallow,
        TablesBuilt;
      ghost var m0, w0 := mem, w;
      BuiltSelf(mem, w);
      GrownSelf(w, root, va);
      KeptSelf(mem, w, RootReach(w, root));
      RootReachIn(w, root);
      TargetsSelf(mem, lastUnused, w, level);
      WalkTellsTo(mem, lastUnused, w, root, va, level, level);
      match PagingAddr(mem, root, va, level) {
        case Some(a) =>
          addr := a;
        case None =>
          var pa := 0;
          for i := 0 to level + 1
            invariant Tables() && OwnTo(w, root, va, level) && Grown(w0, w, root, va)
            invariant |w.free| + i >= |w0.free| + (if i == 0 then 0 else 1)
            invariant i > 0 ==>
              && At(root, va, i - 1) in w.tabs && pa == w.tabs[At(root, va, i - 1)] + 8 * Index(va, i - 1)
            invariant MapsKept(m0, w0, mem, w) && OnlyIn(m0, mem, RootReach(w0, root))
            invariant RootReach(w, root) == RootReach(w0, root)
            invariant TargetsKept(m0, w0, mem, w) && Shallow(w0, w, level) && TablesBuilt(m0, w0, mem, w)
          {
            WalkTellsTo(mem, lastUnused, w, root, va, level, i);
            var a := PagingAddr(mem, root, va, i);
            if a.None? {
              ghost var m1, w1 := mem, w;
              NextPos(w, root, va, level, i);
              ghost var last1 := lastUnused;
              var _ := InstallTable(pa, At(root, va, i - 1), Index(va, i - 1));
              GrownStep(w0, w1, root, va, i, w1.free[0]);
              OwnToGrows(w1, w, root, va, level);
              MoreBuilt(m0, w0, m1, last1, w1, mem, lastUnused, w, At(root, va, i - 1), Index(va, i - 1), w1.free[0]);
              LinkedTargets(m0, w0, m1, last1, w1, mem, w, At(root, va, i - 1), Index(va, i - 1), w1.free[0], level);
              OnlyInMore(m0, m1, mem, RootReach(w0, root), RootReach(w1, root));
              RootReachStep(w1, At(root, va, i), w1.free[0]);
              MapsTwice(m0, w0, m1, w1, mem, w);
              WalkTellsTo(mem, lastUnused, w, root, va, level, i);
              a := PagingAddr(mem, root, va, i);
            }
            pa := a.value;
          }
          WalkTellsTo(mem, lastUnused, w, root, va, level, level);
          addr := PagingAddr(mem, root, va, level).value;
      }
      OnlyInWider(m0, mem, RootReach(w0, root), Reach(w0));
    }

    /** Writes the entry at addr, which is that of va. */
    method SetEntry(addr: nat, e: nat, ghost root: nat, ghost va: nat)
      requires Tables() && At(root, va, 3) in w.tabs && addr == w.tabs[At(root, va, 3)] + 8 * Index(va, 3)
      modifies this`mem
      ensures Tables() && MappedBut(old(mem), w, mem, w, At(root, va, 4), e)
      ensures LeafSet(old(mem), w, mem, At(root, va, 3), Index(va, 3), e)
      ensures OnlyIn(old(mem), mem, Reach(w)) && Load(mem, addr) == e && mem == old(mem)[addr := e]
    {
      hide WorldOk, OnlyIn, MappedBut, Reach, At, Index, WordsBut;
      LeafWritten(mem, lastUnused, w, root, va, e);
      mem := mem[addr := e];
    }

    /** Maps the page of va, building tables as needed. No other page changes. */
    method KmemMap(root: nat, va: nat, page: nat, flags: nat)
      requires Tables() && Own(w, root, va) && (PagingAddr(mem, root, va, 3).Some? || 3 <= |w.free|)
      requires IsPage(page) && IsFlags(flags)
      modifies this`mem, this`lastUnused, this`w
      ensures Tables() && Extends(old(w), w) && |w.free| + 3 >= |old(w).free| && Reach(w) == Reach(old(w))
      ensures MappedBut(old(mem), old(w), mem, w, At(root, va, 4), page + flags) && OnlyIn(old(mem), mem, Reach(old(w)))
      ensures PagingAddr(mem, root, va, 3).Some? && Load(mem, PagingAddr(mem, root, va, 3).value) == page + flags
      ensures TablesBuilt(old(mem), old(w), mem, w)
    {
      hide WorldOk, OnlyIn, MapsKept, MappedBut, Reach, Grown, OwnTo, At, Index, Extends, TablesBuilt, LeafSet,
        TargetsKept, Shallow;
      ghost var m0, w0 := mem, w;
      var addr := KmemPagingAddrCreate(root, va, 3);
      ghost var m1 := mem;
      ghost var last1 := lastUnused;
      SetEntry(addr, page + flags, root, va);
      SetBuilt(m0, w0, m1, last1, w, mem, root, va, page + flags);
      GrownExtends(w0, w, root, va);
      ButAfterKept(m0, w0, m1, w, mem, w, At(root, va, 4), page + flags);
      OnlyInMore(m0, m1, mem, Reach(w0), Reach(w));
      OwnExtends(w0, w, root, va);
      WalkTellsOk(mem, lastUnused, w, root, va, 3);
    }

    /** Gives the page of va other flags. The new entry is that of the old page, if there was one. */
    method KmemSetFlags(root: nat, va: nat, flags: nat) returns (ghost e: nat)
      requires Tables() && Own(w, root, va) && IsFlags(flags) && (PagingAddr(mem, root, va, 3).Some? || 3 <= |w.free|)
      modifies this`mem, this`lastUnused, this`w
      ensures Tables() && Extends(old(w), w) && |w.free| + 3 >= |old(w).free|
      ensures (old(PagingAddr(mem, root, va, 3)).Some? ==> w == old(w))
      ensures MappedBut(old(mem), old(w), mem, w, At(root, va, 4), e) && OnlyIn(old(mem), mem, Reach(old(w)))
      ensures Mapped(old(mem), old(w), At(root, va, 4)).Some? ==>
        && w.tabs == old(w).tabs && e == PageOf(Mapped(old(mem), old(w), At(root, va, 4)).value) + flags
      ensures TablesBuilt(old(mem), old(w), mem, w)
    {
      hide WorldOk, OnlyIn, MapsKept, MappedBut, Reach, Grown, OwnTo, At, Index, Extends, Mapped, PageOf, PagingAddr,
        TablesBuilt, LeafSet, TargetsKept, Shallow;
      ghost var m0, w0, last0 := mem, w, lastUnused;
      var addr := KmemPagingAddrCreate(root, va, 3);
      ghost var m1 := mem;
      assert Mapped(m0, w0, At(root, va, 4)).Some? ==>
        && w.tabs == w0.tabs
        && Load(m1, w.tabs[At(root, va, 3)] + 8 * Index(va, 3)) == Mapped(m0, w0, At(root, va, 4)).value by {
        EntryHere(m0, last0, w0, m1, w, root, va);
      }
      e := PageOf(Load(mem, addr)) + flags;
      ghost var last1 := lastUnused;
      SetEntry(addr, PageOf(Load(mem, addr)) + flags, root, va);
      SetBuilt(m0, w0, m1, last1, w, mem, root, va, e);
      ghost var m2, w2, e2 := mem, w, e;
      assert Extends(w0, w2) && Reach(w2) == Reach(w0) by { GrownExtends(w0, w2, root, va); }
      assert MappedBut(m0, w0, m2, w2, At(root, va, 4), e2) by {
        ButAfterKept(m0, w0, m1, w2, m2, w2, At(root, va, 4), e2);
      }
      assert OnlyIn(m0, m2, Reach(w0)) by { OnlyInMore(m0, m1, m2, Reach(w0), Reach(w2)); }
    }

    // ----- counted pages

    ghost function Around(): Frame
      reads this`rootMap, this`ids, this`base, this`pool
    {
      Frame(rootMap, ids, base, pool)
    }

    ghost function Now(): Snap
      reads this`mem, this`lastUnused, this`w, this`pageCount, this`lost
    {
      Snap(mem, lastUnused, w, pageCount, lost)
    }

    ghost predicate IdsOk()
      reads this`ids, this`nextId, this`rootCount, this`rootMap
    {
      IdsFine(ids, nextId, rootCount, rootMap)
    }

    /** Tables, list, counts and roots are in order. */
    ghost predicate Valid()
      reads this
    {
      Whole(Around(), Now()) && IdsOk()
    }

    /** What the root table of an id is, or null. */
    function RootAddress(id: nat): nat
      reads this`rootMap
    {
      if id in rootMap then rootMap[id] else 0
    }

    method IncrementPage(page: nat)
      modifies this`pageCount
      ensures Raised(old(pageCount), pageCount, page)
    {
      var current := Count(pageCount, page);
      pageCount := pageCount[page := current + 1];
    }

    /** Counts one reference less; the last one puts the page on the list. */
    method DecrementPage(page: nat)
      modifies this`mem, this`lastUnused, this`w, this`pageCount
      ensures pageCount == Lowered(old(pageCount), page)
      ensures if Count(old(pageCount), page) == 1
        then w == Pushed(old(w), page) && mem == old(mem)[page := old(lastUnused)] && lastUnused == page
        else w == old(w) && mem == old(mem) && lastUnused == old(lastUnused)
      ensures old(Tables() && (Count(pageCount, page) == 1 ==> Loose(mem, w, page))) ==>
        Tables() && (Count(old(pageCount), page) == 1 ==> OnlyIn(old(mem), mem, {page}))
    {
      hide WorldOk, Loose, OnlyIn;
      var current := Count(pageCount, page);
      if current == 0 {
        return;
      } else if current > 1 {
        pageCount := pageCount[page := current - 1];
      } else {
        pageCount := pageCount - {page};
        KmemUnuse(page);
      }
    }

    /** As in the kernel, but the tables that are built are counted. */
    method PagingAddrCreate(root: nat, va: nat, level: nat, ghost id: nat) returns (addr: nat)
      requires Valid() && id in rootMap && rootMap[id] == root && Private(w, root, va)
      requires level <= 3 && (At(root, va, level) in w.tabs || level <= |w.free|)
      modifies this`mem, this`lastUnused, this`w, this`pageCount
      ensures Valid() && Tables() && Grown(old(w), w, root, va) && |w.free| + level >= |old(w).free|
      ensures At(root, va, level) in old(w).tabs ==> unchanged(this)
      ensures At(root, va, level) in w.tabs && addr == w.tabs[At(root, va, level)] + 8 * Index(va, level)
      ensures MapsKept(old(mem), old(w), mem, w) && OnlyIn(old(mem), mem, Reach(old(w)))
      ensures CountsGrow(old(w), w, old(pageCount), pageCount) && OthersOwe(old(mem), mem, rootMap, id)
      ensures TablesBuilt(old(mem), old(w), mem, w)
    {
      hide Whole, WorldOk, OnlyIn, MapsKept, Reach, Grown, OwnTo, At, Index, CountsGrow, RootReach, Linked, OthersOwe,
        Raised, IdsOk, Count, Present, Load, PageOf, Mapped, TablesBuilt;
      ghost var m0, w0, c0 := mem, w, pageCount;
      WholeTables(Around(), Now());
      BuiltSelf(mem, w);
      GrownSelf(w, root, va);
      KeptSelf(mem, w, RootReach(w, root));
      RootReachIn(w, root);
      GrowSelf(w, pageCount);
      OthersSame(mem, rootMap, id);
      WalkTellsOk(mem, lastUnused, w, root, va, level);
      match PagingAddr(mem, root, va, level) {
        case Some(a) =>
          addr := a;
        case None =>
          var pa := 0;
          for i := 0 to level + 1
            invariant Valid() && Tables() && Own(w, root, va) && Grown(w0, w, root, va)
            invariant |w.free| + i >= |w0.free| + (if i == 0 then 0 else 1)
            invariant i > 0 ==>
              && At(root, va, i - 1) in w.tabs && pa == w.tabs[At(root, va, i - 1)] + 8 * Index(va, i - 1)
            invariant MapsKept(m0, w0, mem, w) && OnlyIn(m0, mem, RootReach(w0, root))
            invariant RootReach(w, root) == RootReach(w0, root)
            invariant CountsGrow(w0, w, c0, pageCount) && OthersOwe(m0, mem, rootMap, id) && TablesBuilt(m0, w0, mem, w)
          {
            WalkTellsOk(mem, lastUnused, w, root, va, i);
            var a := PagingAddr(mem, root, va, i);
            if a.None? {
              ghost var m1, w1, c1, s1 := mem, w, pageCount, Now();
              NextPos(w, root, va, 3, i);
              ghost var last1 := lastUnused;
              var ntable := InstallTable(pa, At(root, va, i - 1), Index(va, i - 1));
              IncrementPage(ntable);
              FirstDigit(root, va, i - 1);
              TableStep(Around(), s1, Now(), id, At(root, va, i - 1), Index(va, i - 1), ntable);
              MoreBuilt(m0, w0, m1, last1, w1, mem, lastUnused, w, At(root, va, i - 1), Index(va, i - 1), ntable);
              OthersChain(m0, m1, mem, rootMap, id);
              GrownFree(w0, w1, root, va);
              CountedStep(w0, w1, w, c0, c1, pageCount, ntable);
              GrownStep(w0, w1, root, va, i, ntable);
              OwnGrows(w0, w1, w, root, va);
              OnlyInMore(m0, m1, mem, RootReach(w0, root), RootReach(w1, root));
              RootReachStep(w1, At(root, va, i), ntable);
              MapsTwice(m0, w0, m1, w1, mem, w);
              WalkTellsOk(mem, lastUnused, w, root, va, i);
              a := PagingAddr(mem, root, va, i);
            }
            pa := a.value;
          }
          WalkTellsOk(mem, lastUnused, w, root, va, level);
          addr := PagingAddr(mem, root, va, level).value;
      }
      OnlyInWider(m0, mem, RootReach(w0, root), Reach(w0));
    }

    // ----- one page of a range

    /** Maps a fresh page. What was mapped there stays counted although nothing leads to it any more. */
    method AnonymousPage(root: nat, va: nat, ghost id: nat) returns (ghost page: nat)
      requires Valid() && id in rootMap && rootMap[id] == root && Private(w, root, va) && 4 <= |w.free|
      modifies this`mem, this`lastUnused, this`w, this`pageCount, this`lost
      ensures Valid() && Extends(old(w), w) && |w.free| + 4 >= |old(w).free|
      ensures MappedBut(old(mem), old(w), mem, w, At(root, va, 4), page + MAP_DATA) && PageOf(page + MAP_DATA) == page
      ensures page in old(w).free && page !in w.free && Present(page + MAP_DATA)
      ensures CountsGrow(old(w), w, old(pageCount), pageCount) && Count(pageCount, page) == 1
      ensures lost == old(lost) + PlaceRefers(Mapped(old(mem), old(w), At(root, va, 4)))
      ensures OthersOwe(old(mem), mem, rootMap, id) && TablesBuilt(old(mem), old(w), mem, w)
    {
      hide TablesBuilt, Whole, WorldOk, OnlyIn, MapsKept, MappedBut, Reach, Grown, Own, At, Index, CountsGrow,
        Extends, PageOf, OthersOwe, IdsOk, Mapped, Referred, PlaceRefers, Present;
      ghost var m0, w0, c0 := mem, w, pageCount;
      var eaddr := PagingAddrCreate(root, va, 3, id);
      ghost var m1, w1, c1 := mem, w, pageCount;
      ghost var last1 := lastUnused;
      page := FillPlace(eaddr, root, va, id);
      SetBuilt(m0, w0, m1, last1, w1, mem, root, va, page + MAP_DATA);
      BuiltSame(m0, w0, mem, w1, w);
      GrownExtends(w0, w1, root, va);
      GrownFree(w0, w1, root, va);
      PlaceWas(m0, w0, m1, w1, root, va);
      OthersChain(m0, m1, mem, rootMap, id);
      CountedStep(w0, w1, w, c0, c1, pageCount, page);
      PoppedExtends(w0, w1);
      ButAfterPop(m0, w0, m1, w1, mem, At(root, va, 4), page + MAP_DATA);
    }

    /** Takes a page and maps it at an entry. */
    method FillPlace(eaddr: nat, ghost root: nat, ghost va: nat, ghost id: nat) returns (paddr: nat)
      requires Valid() && Tables() && id in rootMap && rootMap[id] == root && Index(va, 0) != 384 && 0 < |w.free|
      requires At(root, va, 3) in w.tabs && eaddr == w.tabs[At(root, va, 3)] + 8 * Index(va, 3)
      modifies this`mem, this`lastUnused, this`w, this`pageCount, this`lost
      ensures Valid() && w == Popped(old(w)) && paddr == old(w).free[0] && paddr in old(w).free && paddr !in w.free
      ensures MappedBut(old(mem), w, mem, w, At(root, va, 4), paddr + MAP_DATA)
      ensures PageOf(paddr + MAP_DATA) == paddr && Present(paddr + MAP_DATA)
      ensures Raised(old(pageCount), pageCount, paddr) && Count(pageCount, paddr) == 1
      ensures OthersOwe(old(mem), mem, rootMap, id)
      ensures lost == old(lost) + Referred(Load(old(mem), eaddr)) && mem == old(mem)[eaddr := paddr + MAP_DATA]
    {
      hide Whole, WorldOk, OnlyIn, MappedBut, Reach, At, Index, PageOf, LeafSet, OthersOwe, Raised, IdsOk, Referred,
        Loose, Present;
      ghost var s1 := Now();
      HeadPage(mem, lastUnused, w);
      paddr := KmemGetPage();
      lost := lost + Referred(Load(mem, eaddr));
      SetEntry(eaddr, paddr + MAP_DATA, root, va);
      IncrementPage(paddr);
      FreshEntry(paddr);
      PlacePlain(root, va);
      PlaceStep(Around(), s1, Now(), id, At(root, va, 3), Index(va, 3), paddr, paddr + MAP_DATA);
    }

    /** Takes the mapping of a page away, if there is one. */
    method UnmapPage(root: nat, va: nat, ghost id: nat)
      requires Valid() && id in rootMap && rootMap[id] == root && Private(w, root, va)
      modifies this`mem, this`lastUnused, this`w, this`pageCount
      ensures Valid() && w.tabs == old(w).tabs && w.foreign == old(w).foreign
      ensures MappedBut(old(mem), old(w), mem, w, At(root, va, 4), 0)
      ensures Mapped(old(mem), old(w), At(root, va, 4)).None? ==> mem == old(mem)
      ensures DroppedAtPlace(Mapped(old(mem), old(w), At(root, va, 4)), old(w), old(pageCount), w, pageCount)
      ensures OthersOwe(old(mem), mem, rootMap, id)
    {
      hide Whole, WorldOk, OnlyIn, MapsKept, MappedBut, Reach, Own, At, Index, PageOf, LeafSet, OthersOwe, IdsOk,
        Mapped, Referred, Loose, Present, EntryCleared, Load;
      ghost var m0, w0, last0, c0, s0 := mem, w, lastUnused, pageCount, Now();
      ghost var p, i, q := At(root, va, 3), Index(va, 3), At(root, va, 4);
      WholeTables(Around(), Now());
      MappedEntry(mem, lastUnused, w, root, va);
      ButNothing(mem, w, q);
      OthersSame(mem, rootMap, id);
      match PagingAddr(mem, root, va, 3) {
        case None =>
        case Some(eaddr) =>
          var entry := Load(mem, eaddr);
          if Present(entry) {
            PlacePlain(root, va);
            ReferredIs(entry);
            LastReference(Around(), s0, id, p, i, PageOf(entry));
            DecrementPage(PageOf(entry));
            ghost var m1, w1 := mem, w;
            DropKeeps(m0, last0, w0, m1, w1, PageOf(entry));
            SetEntry(eaddr, 0, root, va);
            DropStep(Around(), s0, Now(), id, p, i, PageOf(entry));
            ButAfterKept(m0, w0, m1, w1, mem, w, q, 0);
          }
      }
    }

    /** Gives a mapped page other flags. If these say absent, the page stays counted although nothing leads to it. */
    method ProtectPage(root: nat, va: nat, flags: nat, ghost id: nat)
      requires Valid() && id in rootMap && rootMap[id] == root && Private(w, root, va) && IsFlags(flags)
      modifies this`mem, this`lost
      ensures Valid() && OthersOwe(old(mem), mem, rootMap, id)
      ensures match Mapped(old(mem), w, At(root, va, 4))
        case None => mem == old(mem)
        case Some(e) => MappedBut(old(mem), w, mem, w, At(root, va, 4), PageOf(e) + flags)
      ensures lost == old(lost) + if Present(flags) then multiset{}
        else PlaceRefers(Mapped(old(mem), w, At(root, va, 4)))
    {
      hide Whole, WorldOk, OnlyIn, MapsKept, MappedBut, Reach, Own, At, Index, PageOf, LeafSet, OthersOwe, IdsOk,
        Mapped, Referred, Present, Load;
      ghost var m0, q, s0, p, i := mem, At(root, va, 4), Now(), At(root, va, 3), Index(va, 3);
      WholeTables(Around(), Now());
      MappedEntry(mem, lastUnused, w, root, va);
      OthersSame(mem, rootMap, id);
      match PagingAddr(mem, root, va, 3) {
        case None =>
        case Some(eaddr) =>
          var entry := Load(mem, eaddr);
          if Present(entry) {
            PlacePlain(root, va);
            SetEntry(eaddr, PageOf(entry) + flags, root, va);
            ReferredFlags(entry, flags);
            lost := lost + if Present(flags) then multiset{} else Referred(entry);
            FlagStep(Around(), s0, Now(), id, p, i, PageOf(entry) + flags);
          }
      }
    }

    /** Maps the page that another place maps, with the same entry. */
    method MirrorPage(root: nat, va: nat, sroot: nat, sva: nat, ghost id: nat, ghost sid: nat)
      requires Valid() && id in rootMap && rootMap[id] == root && sid in rootMap && rootMap[sid] == sroot
      requires Private(w, root, va) && Private(w, sroot, sva) && 3 <= |w.free|
      requires Mapped(mem, w, At(sroot, sva, 4)).Some?
      modifies this`mem, this`lastUnused, this`w, this`pageCount, this`lost
      ensures Valid() && Extends(old(w), w) && |w.free| + 3 >= |old(w).free|
      ensures var e := Mapped(old(mem), old(w), At(sroot, sva, 4)).value;
        && MappedBut(old(mem), old(w), mem, w, At(root, va, 4), e)
        && RaisedOnce(old(w), w, old(pageCount), pageCount, PageOf(e))
      ensures lost == old(lost) + PlaceRefers(Mapped(old(mem), old(w), At(root, va, 4)))
      ensures OthersOwe(old(mem), mem, rootMap, id)
    {
      hide RaisedOnce, Whole, WorldOk, OnlyIn, MapsKept, MappedBut, Reach, Grown, Own, At, Index, CountsGrow, Extends,
        PageOf, Mapped, OthersOwe, IdsOk, Referred, PlaceRefers, Present, Load, TablesBuilt;
      ghost var m0, w0, c0 := mem, w, pageCount;
      var eaddr := PagingAddrCreate(root, va, 3, id);
      ghost var m1, w1, c1 := mem, w, pageCount;
      GrownExtends(w0, w1, root, va);
      OwnExtends(w0, w1, sroot, sva);
      StillMapped(m0, w0, m1, w1, sroot, sva);
      MappedEntry(mem, lastUnused, w, sroot, sva);
      WalkTellsOk(mem, lastUnused, w, sroot, sva, 3);
      var saddr := PagingAddrCreate(sroot, sva, 3, sid);
      var sentry := Load(mem, saddr);
      MappedOwed(Around(), Now(), sid, sroot, sva, sentry);
      SharePlace(eaddr, sentry, root, va, id);
      PlaceWas(m0, w0, m1, w1, root, va);
      OthersChain(m0, m1, mem, rootMap, id);
      ButAfterKept(m0, w0, m1, w1, mem, w, At(root, va, 4), sentry);
      MirrorCounts(w0, w, c0, c1, pageCount, PageOf(sentry));
    }

    /** Maps a page that is mapped already at an entry. */
    method SharePlace(eaddr: nat, sentry: nat, ghost root: nat, ghost va: nat, ghost id: nat)
      requires Valid() && Tables() && id in rootMap && rootMap[id] == root && Index(va, 0) != 384
      requires Present(sentry) && PageOf(sentry) in Owed(Around(), Now())
      requires At(root, va, 3) in w.tabs && eaddr == w.tabs[At(root, va, 3)] + 8 * Index(va, 3)
      modifies this`mem, this`pageCount, this`lost
      ensures Valid() && MappedBut(old(mem), w, mem, w, At(root, va, 4), sentry)
      ensures Raised(old(pageCount), pageCount, PageOf(sentry)) && OthersOwe(old(mem), mem, rootMap, id)
      ensures lost == old(lost) + Referred(Load(old(mem), eaddr))
    {
      hide Whole, WorldOk, OnlyIn, MappedBut, Reach, At, Index, PageOf, LeafSet, OthersOwe, Raised, IdsOk, Referred,
        Present, Load;
      ghost var s1 := Now();
      lost := lost + Referred(Load(mem, eaddr));
      SetEntry(eaddr, sentry, root, va);
      IncrementPage(PageOf(sentry));
      PlacePlain(root, va);
      ShareStep(Around(), s1, Now(), id, At(root, va, 3), Index(va, 3), sentry);
    }

    // ----- ranges of pages

    /** The request is refused: no such root, or not whole pages. */
    predicate Refused(rootId: nat, address: nat, size: nat)
      reads this`rootMap
    {
      RootAddress(rootId) == 0 || address % PAGE != 0 || size % PAGE != 0
    }

    /** Maps fresh pages throughout a range. */
    method MmanAnonymous(rootId: nat, address: nat, size: nat) returns (r: int)
      requires Valid()
      requires !Refused(rootId, address, size) ==>
        && PrivatePages(w, RootAddress(rootId), address, size / PAGE) && 4 * (size / PAGE) <= |w.free|
      modifies this`mem, this`lastUnused, this`w, this`pageCount, this`lost
      ensures Valid() && r == (if Refused(rootId, address, size) then -1 else 0)
      ensures r == -1 ==> unchanged(this)
      ensures r == 0 ==> var root, n := RootAddress(rootId), size / PAGE;
        && OthersOwe(old(mem), mem, rootMap, rootId)
        && (size <= SPAN ==> LostBy(old(mem), old(w), old(lost), lost, root, address, n))
        && FreshPages(mem, w, old(w), root, address, n) && PagesApart(mem, w, root, address, n)
        && OthersKept(old(mem), old(w), mem, w, root, address, n) && Extends(old(w), w)
        && |w.free| + 4 * n >= |old(w).free|
        && CountedOnce(mem, w, pageCount, root, address, n) && CountsGrow(old(w), w, old(pageCount), pageCount)
        && TablesBuilt(old(mem), old(w), mem, w) && (old(OpenRoot(mem, w, root)) ==> OpenRoot(mem, w, root))
        && forall va: nat {:trigger SeenFresh(mem, root, va, old(w))} :: address <= va < address + size ==>
          SeenFresh(mem, root, va, old(w))
    {
      hide Whole, IdsOk, MappedBut, Extends, PageOf, PageAt, OthersKept, FreshPages, PagesApart, CountedOnce,
        CountsGrow, Count, Private, PrivatePages, OthersOwe, LostBy, Mapped, PlaceRefers, Present, TablesBuilt, At, Own,
        WorldOk, Reach, RootReach, OpenRoot, Guarded, Translate, SeenFresh;
      var rootAddress := RootAddress(rootId);
      if rootAddress == 0 || address % PAGE != 0 || size % PAGE != 0 {
        return -1;
      }
      ghost var m0, w0, c0, l0, k, n := mem, w, pageCount, lost, 0, size / PAGE;
      var a, s := address, size;
      BuiltSelf(mem, w);
      RangeStart(mem, w, rootAddress, address);
      WholeUncounted(Around(), Now());
      LoweredStart(mem, w, pageCount, rootAddress, address);
      GrowSelf(w, pageCount);
      OthersSame(mem, rootMap, rootId);
      LostStart(mem, w, lost, rootAddress, address);
      while s > 0
        invariant k <= n && a == address + PAGE * k && s == PAGE * (n - k)
        invariant Valid() && Extends(w0, w) && |w.free| + 4 * k >= |w0.free|
        invariant FreshPages(mem, w, w0, rootAddress, address, k) && PagesApart(mem, w, rootAddress, address, k)
        invariant OthersKept(m0, w0, mem, w, rootAddress, address, k)
        invariant CountedOnce(mem, w, pageCount, rootAddress, address, k) && CountsGrow(w0, w, c0, pageCount)
        invariant OthersOwe(m0, mem, rootMap, rootId) && TablesBuilt(m0, w0, mem, w)
        invariant (size <= SPAN ==> LostBy(m0, w0, l0, lost, rootAddress, address, k))
      {
        ghost var m1, w1, c1, l1 := mem, w, pageCount, lost;
        PrivatePage(w0, w, rootAddress, address, n, k);
        WholeTables(Around(), Now());
        ghost var last1 := lastUnused;
        ghost var page := AnonymousPage(rootAddress, a, rootId);
        WholeTables(Around(), Now());
        BuiltOn(m0, w0, m1, last1, w1, mem, lastUnused, w);
        PageAtIs(rootAddress, address, k);
        OthersChain(m0, m1, mem, rootMap, rootId);
        if size <= SPAN { LostStep(m0, w0, l0, m1, w1, l1, lost, rootAddress, address, k); }
        FreshStep(m1, w1, mem, w, w0, rootAddress, address, k, page);
        OnceStep(m1, w1, c1, mem, w, pageCount, w0, rootAddress, address, k, page);
        GrowTwice(w0, w1, w, c0, c1, pageCount);
        OthersStep(m0, w0, m1, w1, mem, w, rootAddress, address, k, page + MAP_DATA);
        ExtendsTwice(w0, w1, w);
        k := k + 1;
        a := a + PAGE;
        s := s - PAGE;
      }
      PagesSeen(m0, w0, rootAddress, address, size);
      return 0;
    }

    /** The pages of a fresh range are seen as data, and by open walks under an open root. */
    lemma PagesSeen(m0: Memory, w0: World, root: nat, address: nat, size: nat)
      requires Valid() && FreshPages(mem, w, w0, root, address, size / PAGE) && Extends(w0, w)
      requires PrivatePages(w0, root, address, size / PAGE) && address % PAGE == 0 && size % PAGE == 0
      requires TablesBuilt(m0, w0, mem, w)
      ensures OpenRoot(m0, w0, root) ==> OpenRoot(mem, w, root)
      ensures forall va: nat {:trigger SeenFresh(mem, root, va, w0)} :: address <= va < address + size ==>
        SeenFresh(mem, root, va, w0)
    {
      hide Whole, Extends, PrivatePages, FreshPages, OwnPages, SeenFresh, Translate, OpenRoot, TablesBuilt, TabsOk;
      WholeTables(Around(), Now());
      TabsFine(mem, lastUnused, w);
      if OpenRoot(m0, w0, root) { OpenBuilt(m0, w0, mem, w, root); }
      PrivateOwn(w0, root, address, size / PAGE);
      OwnPagesExtend(w0, w, root, address, size / PAGE);
      hide WorldOk;
      forall va: nat | address <= va < address + size
        ensures SeenFresh(mem, root, va, w0)
      {
        FreshSeen(mem, lastUnused, w, w0, root, address, size / PAGE, va);
      }
    }

    /** Whether every page of a range is mapped. */
    method MmanCheckAllMapped(rootId: nat, address: nat, size: nat) returns (r: int)
      ensures r == -1 <==> Refused(rootId, address, size)
      ensures r != -1 ==>
        r == if forall k: nat :: k < size / PAGE ==> TransAt(mem, RootAddress(rootId), address, k).Some? then 1 else 0
    {
      var rootAddress := RootAddress(rootId);
      if rootAddress == 0 || address % PAGE != 0 || size % PAGE != 0 {
        return -1;
      }
      ghost var k, n := 0, size / PAGE;
      var a, s := address, size;
      while s > 0
        invariant k <= n && a == address + PAGE * k && s == PAGE * (n - k)
        invariant forall j: nat :: j < k ==> TransAt(mem, rootAddress, address, j).Some?
      {
        assert TransAt(mem, rootAddress, address, k) == Translate(mem, rootAddress, a);
        match PagingAddr(mem, rootAddress, a, 3) {
          case None => return 0;
          case Some(eaddr) =>
            if !Present(Load(mem, eaddr)) {
              return 0;
            }
        }
        k := k + 1;
        a := a + PAGE;
        s := s - PAGE;
      }
      return 1;
    }

    /** Whether some page of a range is mapped. */
    method MmanCheckAnyMapped(rootId: nat, address: nat, size: nat) returns (r: int)
      ensures r == -1 <==> Refused(rootId, address, size)
      ensures r != -1 ==>
        r == if exists k: nat :: k < size / PAGE && TransAt(mem, RootAddress(rootId), address, k).Some? then 1 else 0
    {
      var rootAddress := RootAddress(rootId);
      if rootAddress == 0 || address % PAGE != 0 || size % PAGE != 0 {
        return -1;
      }
      ghost var k, n := 0, size / PAGE;
      var a, s := address, size;
      while s > 0
        invariant k <= n && a == address + PAGE * k && s == PAGE * (n - k)
        invariant forall j: nat :: j < k ==> TransAt(mem, rootAddress, address, j).None?
      {
        assert TransAt(mem, rootAddress, address, k) == Translate(mem, rootAddress, a);
        match PagingAddr(mem, rootAddress, a, 3) {
          case None =>
          case Some(eaddr) =>
            if Present(Load(mem, eaddr)) {
              return 1;
            }
        }
        k := k + 1;
        a := a + PAGE;
        s := s - PAGE;
      }
      return 0;
    }

    /** Unmaps a range; pages whose last reference this was go to the list. */
    method MmanUnmap(rootId: nat, address: nat, size: nat) returns (r: int)
      requires Valid()
      requires !Refused(rootId, address, size) ==> PrivatePages(w, RootAddress(rootId), address, size / PAGE)
      modifies this`mem, this`lastUnused, this`w, this`pageCount
      ensures Valid() && r == (if Refused(rootId, address, size) then -1 else 0)
      ensures r == -1 ==> unchanged(this)
      ensures r == 0 ==> var root, n := RootAddress(rootId), size / PAGE;
        && OthersOwe(old(mem), mem, rootMap, rootId)
        && AllUnmapped(mem, w, root, address, n) && OthersKept(old(mem), old(w), mem, w, root, address, n)
        && w.tabs == old(w).tabs && w.foreign == old(w).foreign && |w.free| >= |old(w).free|
        && FreedExactly(old(w), old(pageCount), w, pageCount)
        && (size <= SPAN ==> LoweredBy(old(mem), old(w), old(pageCount), pageCount, root, address, n))
    {
      hide Whole, IdsOk, MappedBut, PageOf, PageAt, OthersKept, AllUnmapped, Mapped, Lowered, FreedExactly, LoweredBy,
        DroppedAtPlace, Count, Private, PrivatePages, OthersOwe;
      var rootAddress := RootAddress(rootId);
      if rootAddress == 0 || address % PAGE != 0 || size % PAGE != 0 {
        return -1;
      }
      ghost var m0, w0, c0, k, n := mem, w, pageCount, 0, size / PAGE;
      var a, s := address, size;
      RangeStart(mem, w, rootAddress, address);
      WholeUncounted(Around(), Now());
      LoweredStart(mem, w, pageCount, rootAddress, address);
      OthersSame(mem, rootMap, rootId);
      while s > 0
        invariant k <= n && a == address + PAGE * k && s == PAGE * (n - k)
        invariant Valid() && w.tabs == w0.tabs && w.foreign == w0.foreign && |w.free| >= |w0.free|
        invariant FreedExactly(w0, c0, w, pageCount)
        invariant (size <= SPAN ==> LoweredBy(m0, w0, c0, pageCount, rootAddress, address, k))
        invariant AllUnmapped(mem, w, rootAddress, address, k) && OthersKept(m0, w0, mem, w, rootAddress, address, k)
        invariant OthersOwe(m0, mem, rootMap, rootId)
      {
        ghost var m1, w1, c1 := mem, w, pageCount;
        PrivatePage(w0, w, rootAddress, address, n, k);
        UnmapPage(rootAddress, a, rootId);
        OthersChain(m0, m1, mem, rootMap, rootId);
        PageAtIs(rootAddress, address, k);
        FreedStep(w0, c0, w1, c1, w, pageCount, Mapped(m1, w1, PageAt(rootAddress, address, k)));
        if size <= SPAN { LoweredStep(m0, w0, c0, m1, w1, c1, w, pageCount, rootAddress, address, k); }
        UnmapStep(m1, w1, mem, w, rootAddress, address, k);
        OthersStep(m0, w0, m1, w1, mem, w, rootAddress, address, k, 0);
        k := k + 1;
        a := a + PAGE;
        s := s - PAGE;
      }
      return 0;
    }

    /** Gives the mapped pages of a range other flags. */
    method MmanProtect(rootId: nat, address: nat, size: nat, flags: nat) returns (r: int)
      requires Valid() && IsFlags(flags)
      requires !Refused(rootId, address, size) ==> PrivatePages(w, RootAddress(rootId), address, size / PAGE)
      modifies this`mem, this`lost
      ensures Valid() && r == (if Refused(rootId, address, size) then -1 else 0)
      ensures r == -1 ==> unchanged(this)
      ensures r == 0 ==> var root, n := RootAddress(rootId), size / PAGE;
        && OthersOwe(old(mem), mem, rootMap, rootId) && (Present(flags) ==> lost == old(lost))
        && (!Present(flags) && size <= SPAN ==> LostBy(old(mem), w, old(lost), lost, root, address, n))
        && AllReflagged(old(mem), mem, w, root, address, n, flags) && OthersKept(old(mem), w, mem, w, root, address, n)
    {
      hide Whole, IdsOk, MappedBut, PageOf, PageAt, OthersKept, AllReflagged, Mapped, Private, PrivatePages,
        OthersOwe, LostBy, PlaceRefers, Present;
      var rootAddress := RootAddress(rootId);
      if rootAddress == 0 || address % PAGE != 0 || size % PAGE != 0 {
        return -1;
      }
      ghost var m0, l0, k, n := mem, lost, 0, size / PAGE;
      var a, s := address, size;
      RangeStart(mem, w, rootAddress, address);
      OthersSame(mem, rootMap, rootId);
      LostStart(mem, w, lost, rootAddress, address);
      ReflagNone(mem, w, rootAddress, address, flags);
      while s > 0
        invariant k <= n && a == address + PAGE * k && s == PAGE * (n - k)
        invariant Valid() && AllReflagged(m0, mem, w, rootAddress, address, k, flags)
        invariant OthersKept(m0, w, mem, w, rootAddress, address, k)
        invariant OthersOwe(m0, mem, rootMap, rootId) && (Present(flags) ==> lost == l0)
        invariant !Present(flags) && size <= SPAN ==> LostBy(m0, w, l0, lost, rootAddress, address, k)
      {
        ghost var m1, l1 := mem, lost;
        PrivatePage(w, w, rootAddress, address, n, k);
        ProtectPage(rootAddress, a, flags, rootId);
        PageAtIs(rootAddress, address, k);
        OthersChain(m0, m1, mem, rootMap, rootId);
        if !Present(flags) && size <= SPAN { LostStep(m0, w, l0, m1, w, l1, lost, rootAddress, address, k); }
        ReflagStep(m0, m1, mem, w, rootAddress, address, k, flags);
        k := k + 1;
        a := a + PAGE;
        s := s - PAGE;
      }
      return 0;
    }

    /** Whether the guards of a mirror request refuse it. */
    ghost predicate MirrorRefused(rootId: nat, address: nat, sroot: nat, saddress: nat, size: nat)
      reads this
    {
      || Refused(rootId, address, size) || Refused(sroot, saddress, size)
      || (exists k: nat :: k < size / PAGE && TransAt(mem, RootAddress(rootId), address, k).Some?)
      || (exists k: nat :: k < size / PAGE && TransAt(mem, RootAddress(sroot), saddress, k).None?)
    }

    /** Maps in one range the pages that another range maps. */
    method MmanMirror(rootId: nat, address: nat, srootId: nat, saddress: nat, size: nat) returns (r: int)
      requires Valid() && size <= SPAN
      requires !MirrorRefused(rootId, address, srootId, saddress, size) ==>
        && PrivatePages(w, RootAddress(rootId), address, size / PAGE)
        && PrivatePages(w, RootAddress(srootId), saddress, size / PAGE)
        && 3 * (size / PAGE) <= |w.free|
      modifies this`mem, this`lastUnused, this`w, this`pageCount, this`lost
      ensures Valid() && lost == old(lost)
      ensures r == if RootAddress(rootId) == 0 || RootAddress(srootId) == 0 then -1
        else if old(MirrorRefused(rootId, address, srootId, saddress, size)) then 1 else 0
      ensures r != 0 ==> unchanged(this)
      ensures r == 0 ==> var root, sroot, n := RootAddress(rootId), RootAddress(srootId), size / PAGE;
        && Mirrors(old(mem), old(w), mem, w, root, address, sroot, saddress, n)
        && OthersOwe(old(mem), mem, rootMap, rootId)
        && OthersKept(old(mem), old(w), mem, w, root, address, n)
        && RaisedBy(old(mem), old(w), w, old(pageCount), pageCount, sroot, saddress, n)
        && Extends(old(w), w) && |w.free| + 3 * n >= |old(w).free|
    {
      hide Whole, IdsOk, OthersKept, Mirrors, RaisedBy, TransAt, PrivatePages, OthersOwe, Extends;
      var rootAddress := RootAddress(rootId);
      if rootAddress == 0 {
        return -1;
      }
      var srootAddress := RootAddress(srootId);
      if srootAddress == 0 {
        return -1;
      }
      var any := MmanCheckAnyMapped(rootId, address, size);
      if any != 0 {
        return 1;
      }
      var all := MmanCheckAllMapped(srootId, saddress, size);
      if all != 1 {
        return 1;
      }
      CopyEntries(rootAddress, address, srootAddress, saddress, size, rootId, srootId);
      return 0;
    }

    /** The loop of a mirror request that has passed its guards. */
    method CopyEntries(root: nat, address: nat, sroot: nat, saddress: nat, size: nat, ghost id: nat, ghost sid: nat)
      requires Valid() && size <= SPAN && address % PAGE == 0 && saddress % PAGE == 0 && size % PAGE == 0
      requires id in rootMap && rootMap[id] == root && sid in rootMap && rootMap[sid] == sroot
      requires PrivatePages(w, root, address, size / PAGE) && PrivatePages(w, sroot, saddress, size / PAGE)
      requires 3 * (size / PAGE) <= |w.free|
      requires forall k: nat ::
        k < size / PAGE ==> TransAt(mem, root, address, k).None? && TransAt(mem, sroot, saddress, k).Some?
      modifies this`mem, this`lastUnused, this`w, this`pageCount, this`lost
      ensures lost == old(lost) && OthersOwe(old(mem), mem, rootMap, id)
      ensures Valid() && Mirrors(old(mem), old(w), mem, w, root, address, sroot, saddress, size / PAGE)
      ensures OthersKept(old(mem), old(w), mem, w, root, address, size / PAGE) && Extends(old(w), w)
      ensures |w.free| + 3 * (size / PAGE) >= |old(w).free|
      ensures RaisedBy(old(mem), old(w), w, old(pageCount), pageCount, sroot, saddress, size / PAGE)
    {
      hide Whole, IdsOk, MappedBut, Extends, PageOf, PageAt, OthersKept, Mirrors, RaisedBy, RaisedOnce, Mapped,
        TransAt, Private, PrivatePages, Covers, OthersOwe, PlaceRefers, AllUnmapped, AllMapped, Present, At, Own, Count,
        RootReach, Reach, Mapped, WorldOk;
      ghost var m0, w0, c0, k, n := mem, w, pageCount, 0, size / PAGE;
      var a, sa, s := address, saddress, size;
      RangeStart(mem, w, root, address);
      MirrorStart(mem, w, pageCount, root, address, sroot, saddress);
      WholeTables(Around(), Now());
      PrivateOwn(w, root, address, n);
      PrivateOwn(w, sroot, saddress, n);
      GuardsTell(mem, lastUnused, w, root, address, sroot, saddress, n);
      OthersSame(mem, rootMap, id);
      ghost var l0 := lost;
      while s > 0
        invariant k <= n && a == address + PAGE * k && sa == saddress + PAGE * k && s == PAGE * (n - k)
        invariant Valid() && Extends(w0, w) && |w.free| + 3 * k >= |w0.free|
        invariant Mirrors(m0, w0, mem, w, root, address, sroot, saddress, k)
        invariant OthersKept(m0, w0, mem, w, root, address, k)
        invariant RaisedBy(m0, w0, w, c0, pageCount, sroot, saddress, k)
        invariant lost == l0 && OthersOwe(m0, mem, rootMap, id)
      {
        ghost var m1, w1, c1 := mem, w, pageCount;
        PrivatePage(w0, w, root, address, n, k);
        PrivatePage(w0, w, sroot, saddress, n, k);
        PageAtIs(root, address, k);
        PageAtIs(sroot, saddress, k);
        SourceKept(m0, w0, mem, w, root, address, sroot, saddress, n, k);
        ghost var e := Mapped(m0, w0, PageAt(sroot, saddress, k)).value;
        TargetOpen(m0, w0, mem, w, root, address, n, k);
        MirrorPage(root, a, sroot, sa, id, sid);
        OthersChain(m0, m1, mem, rootMap, id);
        CopyStep(m0, w0, c0, m1, w1, c1, mem, w, pageCount, root, address, sroot, saddress, k, e);
        k := k + 1;
        a := a + PAGE;
        sa := sa + PAGE;
        s := s - PAGE;
      }
    }

    // ----- importing and dropping whole roots

    /** The weaker of the two invariants: counts and list are even, whatever the roots share. */
    ghost predicate Owing()
      reads this
    {
      OwingAt(Around(), Now(), rootCount, nextId)
    }

    lemma ValidOwing()
      requires Valid()
      ensures Owing()
    {
      hide Total, Even, Sealed, WindowsApart, Listed, Named;
      forall id | id in rootMap ensures IsPage(rootMap[id]) { assert w.tabs[Pos(rootMap[id], [])] == rootMap[id]; }
      ListFacts(mem, lastUnused, w);
    }

    /** Counts everything below a table. */
    method ImportHelper(root: nat, level: nat)
      requires level <= 3
      modifies this`pageCount
      ensures CountsMore(old(pageCount), pageCount, Visits(mem, root, level, 0))
      decreases 4 - level
    {
      hide CountsMore, Visits, EntryVisits, PageOf;
      ghost var c0, s := pageCount, multiset{};
      MoreNone(pageCount);
      for i := 0 to 512
        invariant CountsMore(c0, pageCount, s) && s + Visits(mem, root, level, i) == Visits(mem, root, level, 0)
      {
        VisitsNext(mem, root, level, i);
        EntryGone(mem, root, level, i);
        if Skipped(level, i) {
          continue;
        }
        var entry := Load(mem, root + 8 * i);
        if !Present(entry) {
          continue;
        }
        var page := PageOf(entry);
        MoreOne(pageCount, page);
        ghost var c1 := pageCount;
        IncrementPage(page);
        MoreTwice(c0, c1, pageCount, s, multiset{page});
        ghost var c2 := pageCount;
        if level < 3 {
          ImportHelper(page, level + 1);
        } else {
          VisitsEnd(mem, page, level + 1);
          MoreNone(pageCount);
        }
        MoreTwice(c0, c2, pageCount, s + multiset{page}, Visits(mem, page, level + 1, 0));
        s := s + multiset{page} + Visits(mem, page, level + 1, 0);
      }
      VisitsEnd(mem, root, level);
      assert s == Visits(mem, root, level, 0);
    }

    /**
     * Counts off everything below a table, which itself is still awaiting its turn in rest. No table is read
     * after it has been put on the list.
     */
    method RemoveHelper(root: nat, level: nat, ghost rest: multiset<nat>)
      requires level <= 3 && root % PAGE == 0 && root in rest && Covered(pageCount, Visits(mem, root, level, 0) + rest)
      requires Listed(mem, lastUnused, w.free) && Pooled(w.free, pageCount, pool)
      modifies this`mem, this`lastUnused, this`w, this`pageCount
      ensures Dropped(old(mem), old(w).free, old(pageCount), mem, w.free, pageCount, Visits(old(mem), root, level, 0))
      ensures Covered(pageCount, rest) && w.tabs == old(w).tabs && w.foreign == old(w).foreign
      ensures Listed(mem, lastUnused, w.free) && Pooled(w.free, pageCount, pool)
      decreases 4 - level, 1
    {
      hide CountsMore, Visits, EntryVisits, PageOf, Dropped, Covered, Lowered, WordsSame, Count, Listed, Pooled;
      ghost var m0, w0, c0, s := mem, w, pageCount, multiset{};
      ghost var all := Visits(mem, root, level, 0);
      DroppedNone(mem, w.free, pageCount);
      for i := 0 to 512
        invariant Dropped(m0, w0.free, c0, mem, w.free, pageCount, s) && s + Visits(m0, root, level, i) == all
        invariant w.tabs == w0.tabs && w.foreign == w0.foreign && Listed(mem, lastUnused, w.free)
        invariant Pooled(w.free, pageCount, pool)
      {
        ghost var next := Visits(m0, root, level, i + 1);
        SumOfRest(s, Visits(m0, root, level, i), rest);
        OwedSame(m0, w0.free, c0, mem, w.free, pageCount, s, root, level, i, rest);
        CoveredAt(pageCount, Visits(m0, root, level, i) + rest, root);
        assert Count(pageCount, root) > 0;
        SameEntry(m0, mem, root, i);
        VisitsNext(m0, root, level, i);
        EntryGone(m0, root, level, i);
        if Skipped(level, i) {
          continue;
        }
        var entry := Load(mem, root + 8 * i);
        if !Present(entry) {
          continue;
        }
        var page := PageOf(entry);
        ghost var below := Visits(m0, page, level + 1, 0);
        PageAligned(entry);
        SumOfPage(s, below, page, next, rest);
        OwedSame(m0, w0.free, c0, mem, w.free, pageCount, s, page, level + 1, 0, next + rest + multiset{page});
        ghost var m1, free1, c1 := mem, w.free, pageCount;
        RemovePage(page, level, next + rest);
        DroppedTwice(m0, w0.free, c0, m1, free1, c1, mem, w.free, pageCount, s, below + multiset{page});
        s := s + (below + multiset{page});
      }
      VisitsEnd(m0, root, level);
      assert s == all;
      DroppedCounts(m0, w0.free, c0, mem, w.free, pageCount, all);
      StillCovered(c0, pageCount, all, rest);
    }

    /** Counts off what lies below the page of an entry, and then the page. */
    method RemovePage(page: nat, level: nat, ghost rest: multiset<nat>)
      requires level <= 3 && IsPage(page)
      requires Covered(pageCount, Visits(mem, page, level + 1, 0) + (rest + multiset{page}))
      requires Listed(mem, lastUnused, w.free) && Pooled(w.free, pageCount, pool)
      modifies this`mem, this`lastUnused, this`w, this`pageCount
      ensures Dropped(old(mem), old(w).free, old(pageCount), mem, w.free, pageCount,
        Visits(old(mem), page, level + 1, 0) + multiset{page})
      ensures w.tabs == old(w).tabs && w.foreign == old(w).foreign
      ensures Listed(mem, lastUnused, w.free) && Pooled(w.free, pageCount, pool)
      decreases 4 - level, 0
    {
      hide CountsMore, Visits, EntryVisits, Dropped, Covered, Lowered, WordsSame, Count, Listed, Pooled;
      ghost var m0, free0, c0 := mem, w.free, pageCount;
      if level < 3 {
        RemoveHelper(page, level + 1, rest + multiset{page});
      } else {
        VisitsEnd(mem, page, level + 1);
        DroppedNone(mem, w.free, pageCount);
        assert Visits(mem, page, level + 1, 0) + (rest + multiset{page}) == rest + multiset{page};
      }
      CoveredAt(pageCount, rest + multiset{page}, page);
      ghost var m1, free1, c1 := mem, w.free, pageCount;
      DropPage(page);
      DroppedTwice(m0, free0, c0, m1, free1, c1, mem, w.free, pageCount, Visits(m0, page, level + 1, 0),
                   multiset{page});
    }

    /** Counts off a whole root. */
    method RemoveRoot(cr3: nat, ghost left: multiset<nat>)
      requires IsPage(cr3) && Covered(pageCount, RootVisits(mem, cr3) + left)
      requires Listed(mem, lastUnused, w.free) && Pooled(w.free, pageCount, pool)
      modifies this`mem, this`lastUnused, this`w, this`pageCount
      ensures Dropped(old(mem), old(w).free, old(pageCount), mem, w.free, pageCount, RootVisits(old(mem), cr3))
      ensures w.tabs == old(w).tabs && w.foreign == old(w).foreign
      ensures Listed(mem, lastUnused, w.free) && Pooled(w.free, pageCount, pool)
    {
      hide CountsMore, Visits, RootVisits, Dropped, Covered, Lowered, WordsSame, Count, Listed, Pooled;
      ghost var m0, free0, c0 := mem, w.free, pageCount;
      RootVisitsAre(mem, cr3);
      ghost var rest := multiset{cr3} + left;
      assert RootVisits(mem, cr3) + left == Visits(mem, cr3, 0, 0) + rest;
      RemoveHelper(cr3, 0, rest);
      CoveredAt(pageCount, rest, cr3);
      ghost var m1, free1, c1 := mem, w.free, pageCount;
      DropPage(cr3);
      DroppedTwice(m0, free0, c0, m1, free1, c1, mem, w.free, pageCount, Visits(m0, cr3, 0, 0), multiset{cr3});
    }

    /** Counts a page that is counted once less, as part of a teardown. */
    method DropPage(page: nat)
      requires Count(pageCount, page) > 0 && IsPage(page) && Listed(mem, lastUnused, w.free)
      requires Pooled(w.free, pageCount, pool)
      modifies this`mem, this`lastUnused, this`w, this`pageCount
      ensures Dropped(old(mem), old(w).free, old(pageCount), mem, w.free, pageCount, multiset{page})
      ensures w.tabs == old(w).tabs && w.foreign == old(w).foreign && pageCount == Lowered(old(pageCount), page)
      ensures Listed(mem, lastUnused, w.free) && Pooled(w.free, pageCount, pool)
    {
      hide Dropped, Lowered, Count, Listed, Pooled;
      ghost var m0, free0, c0 := mem, w.free, pageCount;
      PooledAt(w.free, pageCount, pool, page);
      DroppedOne(mem, w.free, pageCount, page, lastUnused);
      ListedPush(mem, lastUnused, w.free, page);
      DecrementPage(page);
      assert Count(c0, page) == 1 ==> w.free == [page] + free0;
      PooledDropped(m0, free0, c0, mem, w.free, pageCount, multiset{page}, pool);
    }

    /** Counts a root and everything below it. */
    method CountRoot(cr3: nat)
      modifies this`pageCount
      ensures CountsMore(old(pageCount), pageCount, RootVisits(mem, cr3))
    {
      hide CountsMore, Visits, RootVisits;
      ghost var c0 := pageCount;
      MoreOne(pageCount, cr3);
      IncrementPage(cr3);
      ghost var c1 := pageCount;
      ImportHelper(cr3, 0);
      MoreTwice(c0, c1, pageCount, multiset{cr3}, Visits(mem, cr3, 0, 0));
      RootVisitsAre(mem, cr3);
    }

    /** Counts a root and gives it an id. */
    method NameRoot(cr3: nat, ghost w1: World) returns (id: nat)
      modifies this`pageCount, this`rootMap, this`nextId, this`ids, this`pool, this`w
      ensures id == old(nextId) && nextId == id + 1 && Around() == Import(old(Around()), mem, cr3, id)
      ensures w == w1 && CountsMore(old(pageCount), pageCount, RootVisits(mem, cr3))
    {
      hide CountsMore, RootVisits, Visited;
      CountRoot(cr3);
      id := nextId;
      nextId := nextId + 1;
      rootMap := rootMap[id := cr3];
      ids := ids + [id];
      pool := pool + Visited(mem, cr3);
      w := w1;
    }

    /**
     * Takes over the tables of a root: counts them and gives the root an id. What it leads to comes under management.
     * The tables of w1 that w does not have are from now on those of the root alone.
     */
    method ImportRoot(cr3: nat, ghost w1: World) returns (id: nat)
      modifies this`pageCount, this`rootMap, this`nextId, this`ids, this`pool, this`w
      ensures id == old(nextId) && nextId == id + 1 && rootMap == old(rootMap)[id := cr3] && ids == old(ids) + [id]
      ensures w == w1
      ensures pool == old(pool) + Visited(mem, cr3)
      ensures CountsMore(old(pageCount), pageCount, RootVisits(mem, cr3))
      ensures old(Owing() && Fresh(mem, w.free, cr3) && w1.free == w.free) ==> Owing()
      ensures old(Valid() && Fresh(mem, w.free, cr3) && Importable(Around(), Now(), w1, cr3)) ==> Valid()
    {
      hide CountsMore, RootVisits, Fresh, Importable, Whole, IdsFine, Visited, OwingAt, Import, Count;
      ghost var f0, s0 := Around(), Now();
      ghost var owing := Owing() && Fresh(mem, w.free, cr3) && w1.free == w.free;
      ghost var valid := Valid() && Fresh(mem, w.free, cr3) && Importable(Around(), Now(), w1, cr3);
      id := NameRoot(cr3, w1);
      FrameIs(f0, mem, cr3, id);
      if owing { ImportedOwing(f0, s0, w1, pageCount, rootCount, cr3, id); }
      if valid { ImportedFine(f0, s0, w1, pageCount, rootCount, cr3, id); }
    }

    method IncrementRoot(id: nat)
      requires id in rootMap
      modifies this`rootCount
      ensures rootCount == old(rootCount)[id := Count(old(rootCount), id) + 1]
      ensures (old(Owing()) ==> Owing()) && (old(Valid()) ==> Valid())
    {
      hide Whole, Even, Total, Named, Listed;
      rootCount := rootCount[id := Count(rootCount, id) + 1];
    }

    /** Takes a root away and counts back all it owed. Its tables are none of the world's any more. */
    method DropRoot(id: nat)
      requires Owing() && id in rootMap
      modifies this`mem, this`lastUnused, this`w, this`pageCount, this`rootMap, this`rootCount, this`ids
      ensures Owing() && rootMap == old(rootMap) - {id} && rootCount == old(rootCount) - {id}
      ensures ids == Without(old(ids), id)
      ensures w == Cut(old(w), old(rootMap)[id], w.free)
      ensures Dropped(old(mem), old(w).free, old(pageCount), mem, w.free, pageCount,
        RootVisits(old(mem), old(rootMap)[id]))
      ensures forall x :: x in rootMap ==> RootVisits(mem, rootMap[x]) == RootVisits(old(mem), rootMap[x])
      ensures old(Valid()) ==> Valid() && MapsBut(old(Now()), Now(), old(rootMap)[id])
    {
      hide MapsBut, CountsMore, Visits, RootVisits, Total, Pooled, Lowered, Dropped, Covered, WordsSame, Count,
        Without, Whole, Listed, Cut, Standing, Named, Even, IdsFine;
      ghost var f0, s0, valid := Around(), Now(), Valid();
      DropCovered(f0, s0, id);
      IdsLess(ids, nextId, rootCount, rootMap, id);
      rootCount := rootCount - {id};
      var cr3 := rootMap[id];
      rootMap := rootMap - {id};
      ids := Without(ids, id);
      RemoveRoot(cr3, Total(mem, rootMap, ids));
      DropEven(f0, s0, id, mem, lastUnused, w.free, pageCount);
      CutIs(w, s0.w, cr3, w.free);
      w := Cut(w, cr3, w.free);
      if valid {
        DroppedWhole(f0, s0, id, Now());
        DroppedMaps(f0, s0, id, Now());
      }
    }

    // ----- making a root

    /** Copies the word of an entry of the current root to the same entry of the new one. */
    method ShareEntry(ret: nat, current: nat, va: nat, level: nat, ghost m0: Memory, ghost last0: nat, ghost w0: World,
                      ghost s: set<Pos>)
      requires Tables() && WorldOk(m0, last0, w0) && Sprouted(m0, w0, mem, w, ret) && level <= |w.free|
      requires Regional(va, level)
      requires SharedOnly(w0, w, s) && WayClear(ret, va, level + 1, s)
      requires At(current, va, level) in w0.tabs && At(current, va, level + 1) !in w0.tabs && current != ret
      modifies this`mem, this`lastUnused, this`w
      ensures Tables() && Sprouted(m0, w0, mem, w, ret) && |w.free| + level >= |old(w).free|
      ensures SharedOnly(w0, w, s + {At(ret, va, level + 1)})
      ensures CopiedAt(m0, w0, current, mem, w, ret, va, level)
      ensures StillCopied(m0, w0, current, old(mem), old(w), mem, w, ret, At(ret, va, level + 1))
      ensures old(OpenRoot(mem, w, ret)) ==> OpenRoot(mem, w, ret)
    {
      hide WorldOk, Sprouted, OnlyIn, MapsKept, Reach, RootReach, TargetsKept, Shallow, Index, Present, Load, At,
        SharedOnly, WayClear, OwnTo, Grown, TablesBuilt, CopiedAt, StillCopied, OpenRoot;
      ghost var m1, w1 := mem, w;
      OwnAlong(m0, last0, w0, mem, w, ret, va, level, s);
      var nentry := KmemPagingAddrCreate(ret, va, level);
      SproutGrown(m0, w0, m1, w1, mem, w, ret, va, level);
      SharedSame(w0, w1, mem, w, s, m1);
      OldTab(m0, w0, mem, w, ret, At(current, va, level));
      NotShared(m0, last0, w0, mem, w, ret, va, level, s);
      PlaceFound(mem, lastUnused, w, current, va, level);
      var bentry := KmemPagingAddrCreate(current, va, level);
      SproutEntry(m0, last0, w0, mem, lastUnused, w, ret, current, va, level);
      ghost var m2, last2, w2 := mem, lastUnused, w;
      w := if Present(Load(mem, bentry)) then w.(foreign := w.foreign + {At(ret, va, level + 1)}) else w;
      CopiedNow(m0, last0, w0, m2, w2, ret, current, va, level, w);
      mem := mem[nentry := Load(mem, bentry)];
      if OpenRoot(m1, w1, ret) {
        OpenShared(m0, last0, w0, m1, w1, m2, last2, w2, mem, w, ret, va, level, Load(m2, bentry));
      }
      AllStillCopied(m0, last0, w0, current, m1, w1, m2, last2, w2, mem, w, ret, va, level, Load(m2, bentry));
      OnlyMore(w0, w2, w, s, At(ret, va, level + 1));
    }

    /** Makes a root that has the kernel's regions and nothing else. */
    method KmemCreateRoot(current: nat) returns (ret: nat)
      requires Tables() && KernelOk(w, current) && 9 <= |w.free|
      modifies this`mem, this`lastUnused, this`w
      ensures Tables() && Sprouted(old(mem), old(w), mem, w, ret) && |w.free| + 9 >= |old(w).free|
      ensures SharedOnly(old(w), w, Shares(ret, 5)) && ret == old(w).free[0]
      ensures KernelWords(old(mem), current, mem, ret) && KernelSeen(old(mem), current, mem, ret)
      ensures KernelOk(w, ret) && OpenRoot(mem, w, ret)
    {
      hide WorldOk, Sprouted, OnlyIn, Loose, At, KernelOk, Index, SharedOnly, WayClear, Regional, Shares, CopiedAt,
        OpenRoot, KernelWords, KernelSeen, StillCopied;
      ghost var m0, last0, w0 := mem, lastUnused, w;
      ret := KmemGetPage();
      LoosePage(mem, w, ret);
      ClearTable(ret);
      RootBegun(m0, last0, w0, mem, lastUnused, ret);
      w := AddTable(w, Pos(ret, []), ret);
      KernelUse(m0, last0, w0, current);
      KernelApart(m0, last0, w0, current, ret);
      WaysClear(ret);
      KernelPaths(ret);
      SharesNext(ret);
      OpenBegun(m0, last0, w0, mem, ret);
      ShareEntry(ret, current, WINDOW_BASE, 0, m0, last0, w0, Shares(ret, 0));
      ghost var m1, w1 := mem, w;
      ShareEntry(ret, current, TASK_BASE, 2, m0, last0, w0, Shares(ret, 1));
      CopiedOn(m0, w0, current, m1, w1, mem, w, ret, 1);
      m1, w1 := mem, w;
      ShareEntry(ret, current, DESC_BASE, 2, m0, last0, w0, Shares(ret, 2));
      CopiedOn(m0, w0, current, m1, w1, mem, w, ret, 2);
      m1, w1 := mem, w;
      ShareEntry(ret, current, KMEM_BASE_ADDR, 2, m0, last0, w0, Shares(ret, 3));
      CopiedOn(m0, w0, current, m1, w1, mem, w, ret, 3);
      m1, w1 := mem, w;
      ShareEntry(ret, current, STATUS_BASE, 2, m0, last0, w0, Shares(ret, 4));
      CopiedOn(m0, w0, current, m1, w1, mem, w, ret, 4);
      KernelCopied(m0, last0, w0, current, mem, lastUnused, w, ret);
    }

    /** No roots and no counts; only the list. */
    method Reset()
      requires Listed(mem, lastUnused, w.free)
      modifies this`rootMap, this`rootCount, this`pageCount, this`ids, this`base, this`lost, this`pool, this`w
      ensures Valid() && Around() == NoRoots(w.free) && Now() == NothingYet(mem, lastUnused, w.free)
      ensures rootCount == map[]
      ensures w.free == old(w).free
    {
      hide Listed, Whole;
      rootMap, rootCount, pageCount := map[], map[], map[];
      ids, base, lost, pool := [], map[], multiset{}, Unused(World(map[], {}, w.free));
      w := World(map[], {}, w.free);
      EmptyWhole(mem, lastUnused, w.free);
    }

    /** Starts from the list alone, with the manager's own root and that of the boot process. */
    method MmanInit(current: nat, bootproc: nat, ghost w1: World, ghost w2: World) returns (own: nat)
      requires Listed(mem, lastUnused, w.free) && Fresh(mem, w.free, current) && Fresh(mem, w.free, bootproc)
      requires w1.free == w.free
      requires Importable(NoRoots(w.free), NothingYet(mem, lastUnused, w.free), w1, current)
      requires Importable(Import(NoRoots(w.free), mem, current, nextId), NothingYet(mem, lastUnused, w.free).(w := w1),
        w2, bootproc)
      modifies this
      ensures Valid() && own == old(nextId) && rootMap == map[own := current, own + 1 := bootproc]
      ensures rootCount == map[own := 1]
      ensures mem == old(mem) && lastUnused == old(lastUnused) && w == w2 && lost == multiset{} && base == map[]
      ensures forall p: nat :: Count(pageCount, p) == RootVisits(mem, current)[p] + RootVisits(mem, bootproc)[p]
      ensures forall shared {:trigger SharedAt(w2, shared)} ::
        KernelOk(w2, current) && SharedAt(w2, shared) && KernelShared(shared) ==> InRun(own, shared)
    {
      hide Listed, Fresh, Importable, Whole, RootVisits, CountsMore, Import, Visited, IdsFine, Count, OwingAt;
      own := ImportOwn(current, w1);
      ghost var c1 := pageCount;
      ImportableSame(Around(), NothingYet(mem, lastUnused, w.free).(w := w1), Now(), w2, bootproc);
      var _ := ImportRoot(bootproc, w2);
      BothCounted(c1, pageCount, RootVisits(mem, current), RootVisits(mem, bootproc));
    }

    /** The manager's own root, on which it holds a reference. */
    method ImportOwn(current: nat, ghost w1: World) returns (own: nat)
      requires Listed(mem, lastUnused, w.free) && Fresh(mem, w.free, current) && w1.free == w.free
      requires Importable(NoRoots(w.free), NothingYet(mem, lastUnused, w.free), w1, current)
      modifies this
      ensures Valid() && own == old(nextId) && nextId == own + 1 && rootMap == map[own := current]
      ensures rootCount == map[own := 1]
      ensures mem == old(mem) && lastUnused == old(lastUnused) && w == w1 && lost == multiset{} && base == map[]
      ensures Around() == Import(NoRoots(w.free), mem, current, own)
      ensures CountsMore(map[], pageCount, RootVisits(mem, current))
    {
      hide Listed, Fresh, Importable, Whole, RootVisits, CountsMore, Import, Visited, NothingYet, IdsFine;
      Reset();
      ghost var f0 := Around();
      NothingIs(mem, lastUnused, w.free);
      own := ImportRoot(current, w1);
      IncrementRoot(own);
      FrameIs(f0, mem, current, own);
    }

    /** Makes a root and takes it over. No other root notices; the pages taken for it are owed by it. */
    method MmanMakeRoot(current: nat) returns (id: nat)
      requires Valid() && KernelOk(w, current) && 9 <= |w.free|
      modifies this`mem, this`lastUnused, this`w, this`pageCount, this`rootMap, this`nextId, this`ids, this`pool
      ensures Valid() && id == old(nextId) && id !in old(rootMap) && id in rootMap
      ensures rootMap == old(rootMap)[id := rootMap[id]]
      ensures ids == old(ids) + [id] && rootMap[id] in old(w).free && pool == old(pool) && |w.free| + 9 >= |old(w).free|
      ensures AllOwe(old(mem), mem, old(rootMap)) && MapsBut(old(Now()), Now(), rootMap[id])
      ensures KernelOk(w, current) && SharedOnly(old(w), w, Shares(rootMap[id], 5))
      ensures KernelWords(old(mem), current, mem, rootMap[id]) && KernelSeen(old(mem), current, mem, rootMap[id])
      ensures KernelOk(w, rootMap[id]) && OpenRoot(mem, w, rootMap[id])
    {
      hide Whole, WorldOk, Sprouted, KernelOk, SharedOnly, Shares, RootVisits, CountsMore, IdsFine, MapsBut, Visited,
        KernelWords, KernelSeen, OpenRoot;
      ghost var f0, s0 := Around(), Now();
      WholeTables(Around(), Now());
      WholeNamed(Around(), Now());
      var ret := KmemCreateRoot(current);
      assert ret in s0.w.free;
      RootNonzero(s0.mem, s0.last, s0.w, ret);
      IdsMore(ids, nextId, rootCount, rootMap, ret);
      id := ImportRoot(ret, w);
      RootMade(f0, s0, Now(), ret, id);
      VisitedManaged(Frame(rootMap, ids, base, f0.pool), Now(), id);
      PoolSame(f0.pool, Visited(mem, ret));
      MadeMaps(s0, Now(), ret);
      KernelStaysOn(s0.mem, s0.w, mem, w, ret, current);
    }

    /** Drops a reference to a root; with the last one the root goes. */
    method DecrementRoot(id: nat)
      requires Owing()
      modifies this`mem, this`lastUnused, this`w, this`pageCount, this`rootMap, this`rootCount, this`ids
      ensures Owing() && (old(Valid()) ==> Valid())
      ensures Count(rootCount, id) == if Count(old(rootCount), id) == 0 then 0 else Count(old(rootCount), id) - 1
      ensures forall x :: x != id ==> Count(rootCount, x) == Count(old(rootCount), x)
      ensures Count(old(rootCount), id) != 1 ==> Around() == old(Around()) && Now() == old(Now())
      ensures Count(old(rootCount), id) == 1 ==>
        && id in old(rootMap) && Around() == Drop(old(Around()), id) && lost == old(lost)
        && w == Cut(old(w), old(rootMap)[id], w.free)
        && Dropped(old(mem), old(w).free, old(pageCount), mem, w.free, pageCount,
          RootVisits(old(mem), old(rootMap)[id]))
        && (forall x :: x in rootMap ==> RootVisits(mem, rootMap[x]) == RootVisits(old(mem), rootMap[x]))
        && (old(Valid()) ==> MapsBut(old(Now()), Now(), old(rootMap)[id]))
    {
      hide MapsBut, RootVisits, Total, Dropped, Whole, Cut, Named, Even, Listed;
      var current := Count(rootCount, id);
      if current == 0 {
        return;
      } else if current > 1 {
        rootCount := rootCount[id := current - 1];
      } else {
        CountsWithout(rootCount, id);
        DropRoot(id);
      }
    }

    /**
     * A root imported and dropped with its last reference leaves every count as it was, whatever it shares with other
     * roots; the pages no longer counted are on the list once each, and no other page has come to it.
     */
    method ImportAndDrop(cr3: nat) returns (id: nat)
      requires Owing() && Fresh(mem, w.free, cr3)
      modifies this`mem, this`lastUnused, this`w, this`pageCount, this`rootMap, this`rootCount, this`nextId, this`ids,
        this`pool
      ensures Owing() && rootMap == old(rootMap) && forall p :: Count(pageCount, p) == Count(old(pageCount), p)
      ensures forall p: nat {:trigger multiset(w.free)[p]} ::
        multiset(w.free)[p] == multiset(old(w).free)[p]
          + if p in RootVisits(old(mem), cr3) && Count(pageCount, p) == 0 then 1 else 0
    {
      hide CountsMore, Visits, RootVisits, Total, Dropped, Whole, Cut, Named, Even, Listed, Fresh;
      ghost var c0, m0, free0, roots := pageCount, mem, w.free, rootMap;
      assert nextId !in rootMap by { NextIsNew(); }
      id := ImportRoot(cr3, w);
      ghost var c1 := pageCount;
      assert Count(rootCount, id) == 0;
      IncrementRoot(id);
      DecrementRoot(id);
      assert rootMap == roots;
      CountsBack(m0, free0, c0, c1, mem, w.free, pageCount, RootVisits(m0, cr3));
    }

    lemma NextIsNew()
      requires Named(rootMap, ids) && IdsOk()
      ensures nextId !in rootMap && nextId !in ids
    {}

    /** With no root left, a page is counted only as often as before the first one, and as its references were lost. */
    lemma NothingOwed()
      requires Owing() && rootMap == map[]
      ensures forall p: nat :: Count(pageCount, p) == Count(base, p) + lost[p]
    {
      NoMembers(ids);
      NothingCounted(base, pageCount, lost, Total(mem, rootMap, ids), w.free, pool);
    }

    // ----- runs

    ghost function Here(): Moment
      reads this
    {
      Moment(Around(), Now(), rootCount)
    }

    /** Walks the list to its end. */
    method CountUnused() returns (n: nat)
      requires Tables()
      ensures n == |w.free|
    {
      hide TabsOk, ForeignOk, EntriesOk, Load;
      var p := lastUnused;
      n := 0;
      while p != 0
        invariant n <= |w.free| && p == PageOn(w.free, n)
        decreases |w.free| - n
      {
        assert w.free[n] in w.free;
        p := Load(mem, p);
        n := n + 1;
      }
      ListEnds(mem, lastUnused, w, n);
    }

    /** What a run relies on. */
    ghost predicate InRun(own: nat, shared: set<seq<nat>>)
      reads this
    {
      Valid() && own in rootMap && Settled(Around(), w, shared, own, rootMap[own])
    }

    /** One operation for which there are pages enough. */
    method Perform(op: PageOp, own: nat, ghost shared: set<seq<nat>>) returns (r: int)
      requires InRun(own, shared) && Allowed(shared, own, op)
      requires Need(op) <= |w.free| && (op.Acquire? ==> op.rootId in rootMap)
      modifies this
      ensures Valid() && Effect(old(Here()), op, r, Here())
      ensures InRun(own, shared) && rootMap[own] == old(rootMap[own])
      ensures op.MakeRoot? ==> HasKernel(old(Here()), rootMap[own], r, Here())
    {
      hide Whole, Settled, Effect, AsidePages, IdsFine, HasKernel;
      match op {
        case Anonymous(id, a, size) => r := DoAnonymous(id, a, size, own, shared);
        case Mirror(id, a, sid, sa, size) => r := DoMirror(id, a, sid, sa, size, own, shared);
        case Unmap(id, a, size) => r := DoUnmap(id, a, size, own, shared);
        case Protect(id, a, size, flags) => r := DoProtect(id, a, size, flags, own, shared);
        case MakeRoot => r := DoMakeRoot(own, shared);
        case Acquire(id) => r := DoAcquire(id);
        case Release(id) => r := DoRelease(id, own, shared);
      }
    }

    method DoAnonymous(id: nat, address: nat, size: nat, own: nat, ghost shared: set<seq<nat>>) returns (r: int)
      requires InRun(own, shared)
      requires Allowed(shared, own, PageOp.Anonymous(id, address, size)) && 4 * (size / PAGE) <= |w.free|
      modifies this`mem, this`lastUnused, this`w, this`pageCount, this`lost
      ensures Valid() && Effect(old(Here()), PageOp.Anonymous(id, address, size), r, Here())
      ensures InRun(own, shared)
    {
      hide Whole, Settled, OthersOwe, OthersKept, FreshPages, PagesApart, CountedOnce, CountsGrow, LostBy,
        PrivatePages, SharedAt, AsidePages, IdsFine, Extends;
      ghost var s0 := Now();
      SettledShared(Around(), w, shared, own, rootMap[own]);
      RangePrivate(Around(), Now(), shared, id, address, size);
      r := MmanAnonymous(id, address, size);
      if r == 0 {
        ExtendsTabs(s0.w, w);
        SettledGrows(Around(), s0, Now(), shared, own, rootMap[own]);
      }
    }

    method DoMirror(id: nat, address: nat, sid: nat, saddress: nat, size: nat, own: nat, ghost shared: set<seq<nat>>)
      returns (r: int)
      requires InRun(own, shared)
      requires Allowed(shared, own, PageOp.Mirror(id, address, sid, saddress, size)) && 3 * (size / PAGE) <= |w.free|
      modifies this`mem, this`lastUnused, this`w, this`pageCount, this`lost
      ensures Valid() && Effect(old(Here()), PageOp.Mirror(id, address, sid, saddress, size), r, Here())
      ensures InRun(own, shared)
    {
      hide Whole, Settled, OthersOwe, OthersKept, Mirrors, RaisedBy, PrivatePages, SharedAt, AsidePages, IdsFine,
        TransAt, Extends;
      ghost var s0 := Now();
      SettledShared(Around(), w, shared, own, rootMap[own]);
      RangePrivate(Around(), Now(), shared, id, address, size);
      RangePrivate(Around(), Now(), shared, sid, saddress, size);
      r := MmanMirror(id, address, sid, saddress, size);
      if r == 0 {
        ExtendsTabs(s0.w, w);
        SettledGrows(Around(), s0, Now(), shared, own, rootMap[own]);
      }
    }

    method DoUnmap(id: nat, address: nat, size: nat, own: nat, ghost shared: set<seq<nat>>) returns (r: int)
      requires InRun(own, shared)
      requires Allowed(shared, own, PageOp.Unmap(id, address, size))
      modifies this`mem, this`lastUnused, this`w, this`pageCount
      ensures Valid() && Effect(old(Here()), PageOp.Unmap(id, address, size), r, Here())
      ensures InRun(own, shared)
    {
      hide Whole, Settled, OthersOwe, OthersKept, AllUnmapped, FreedExactly, LoweredBy, PrivatePages, SharedAt,
        AsidePages, IdsFine;
      ghost var s0 := Now();
      SettledShared(Around(), w, shared, own, rootMap[own]);
      RangePrivate(Around(), Now(), shared, id, address, size);
      r := MmanUnmap(id, address, size);
      SettledGrows(Around(), s0, Now(), shared, own, rootMap[own]);
    }

    method DoProtect(id: nat, address: nat, size: nat, flags: nat, own: nat, ghost shared: set<seq<nat>>)
      returns (r: int)
      requires InRun(own, shared)
      requires Allowed(shared, own, PageOp.Protect(id, address, size, flags))
      modifies this`mem, this`lost
      ensures Valid() && Effect(old(Here()), PageOp.Protect(id, address, size, flags), r, Here())
      ensures InRun(own, shared)
    {
      hide Whole, Settled, OthersOwe, OthersKept, AllReflagged, LostBy, PrivatePages, SharedAt, AsidePages, IdsFine;
      ghost var s0 := Now();
      SettledShared(Around(), w, shared, own, rootMap[own]);
      RangePrivate(Around(), Now(), shared, id, address, size);
      r := MmanProtect(id, address, size, flags);
      SettledGrows(Around(), s0, Now(), shared, own, rootMap[own]);
    }

    method DoMakeRoot(own: nat, ghost shared: set<seq<nat>>) returns (r: int)
      requires InRun(own, shared) && 9 <= |w.free|
      modifies this`mem, this`lastUnused, this`w, this`pageCount, this`rootMap, this`nextId, this`ids, this`pool
      ensures Valid() && Effect(old(Here()), MakeRoot, r, Here())
      ensures InRun(own, shared) && rootMap[own] == old(rootMap[own])
      ensures HasKernel(old(Here()), rootMap[own], r, Here())
    {
      hide Whole, Settled, AllOwe, MapsBut, SharedAt, IdsFine, SharedOnly, Shares, KernelOk, KernelWords, KernelSeen,
        OpenRoot;
      ghost var f0, w0, current := Around(), w, rootMap[own];
      SettledShared(Around(), w, shared, own, current);
      var id := MmanMakeRoot(rootMap[own]);
      SettledMade(f0, w0, Around(), w, shared, own, current, id);
      r := id;
    }

    method DoAcquire(id: nat) returns (r: int)
      requires Valid() && id in rootMap
      modifies this`rootCount
      ensures Valid() && Effect(old(Here()), Acquire(id), r, Here())
    {
      hide Whole, IdsFine;
      IncrementRoot(id);
      r := 0;
    }

    method DoRelease(id: nat, own: nat, ghost shared: set<seq<nat>>) returns (r: int)
      requires InRun(own, shared) && id != own
      modifies this`mem, this`lastUnused, this`w, this`pageCount, this`rootMap, this`rootCount, this`ids
      ensures Valid() && Effect(old(Here()), Release(id), r, Here())
      ensures InRun(own, shared) && rootMap[own] == old(rootMap[own])
    {
      hide Whole, Settled, MapsBut, SharedAt, IdsFine, KernelOk, RootVisits, Dropped, Cut, Total, Even, Listed, Named,
        Without, Count;
      ghost var f0, s0, current := Around(), Now(), rootMap[own];
      ValidOwing();
      DecrementRoot(id);
      if Count(old(rootCount), id) == 1 { SettledCut(f0, s0, w.free, shared, own, current, id); }
      r := 0;
    }

    /**
     * Performs operations one after the other; one is passed over if the list is too short for it, or if it refers to
     * a root there is not. Throughout, tables, list and counts are in order, and every operation has its effect.
     */
    method Run(ops: seq<PageOp>, own: nat, ghost shared: set<seq<nat>>)
      returns (results: seq<Option<int>>, ghost history: seq<Moment>)
      requires InRun(own, shared)
      requires forall op :: op in ops ==> Allowed(shared, own, op)
      modifies this
      ensures Valid() && IsTrace(ops, results, history) && history[0] == old(Here()) && history[|ops|] == Here()
      ensures InRun(own, shared) && rootMap[own] == old(rootMap[own])
      ensures forall k :: 0 <= k < |ops| && ops[k].MakeRoot? && results[k].Some? ==>
        HasKernel(history[k], rootMap[own], results[k].value, history[k + 1])
    {
      hide Whole, Settled, Effect, Allowed, IdsFine, HasKernel;
      results, history := [], [Here()];
      for k := 0 to |ops|
        invariant InRun(own, shared) && rootMap[own] == old(rootMap[own])
        invariant |results| == k && |history| == k + 1 && history[0] == old(Here()) && history[k] == Here()
        invariant forall j :: 0 <= j <= k ==> Whole(history[j].f, history[j].s)
        invariant forall j :: 0 <= j < k ==> Step(history[j], ops[j], results[j], history[j + 1])
        invariant forall j :: 0 <= j < k && ops[j].MakeRoot? && results[j].Some? ==>
          HasKernel(history[j], rootMap[own], results[j].value, history[j + 1])
      {
        WholeTables(Around(), Now());
        var op := ops[k];
        var n := CountUnused();
        if n < Need(op) || (op.Acquire? && op.rootId !in rootMap) {
          results := results + [None];
        } else {
          var r := Perform(op, own, shared);
          results := results + [Some(r)];
        }
        history := history + [Here()];
      }
    }
  }

  lemma NothingCounted(base: map<nat, nat>, c: map<nat, nat>, lost: multiset<nat>, owed: multiset<nat>, free: seq<nat>,
                       pool: set<nat>)
    requires Even(base, c, lost + owed, free, pool) && owed == multiset{}
    ensures forall p: nat :: Count(c, p) == Count(base, p) + lost[p]
  {
    forall p: nat ensures Count(c, p) == Count(base, p) + lost[p] { CountAt(base, c, lost + owed, p); }
  }

  lemma NoMembers(ids: seq<nat>)
    ensures ids == [] || exists x :: x in ids
  {
    if ids != [] { assert ids[0] in ids; }
  }

  /** Counting pages and counting them back. */
  lemma CountsBack(m: Memory, free: seq<nat>, c: map<nat, nat>, c1: map<nat, nat>, m': Memory, free': seq<nat>,
                   c': map<nat, nat>, s: multiset<nat>)
    requires CountsMore(c, c1, s) && Dropped(m, free, c1, m', free', c', s)
    ensures forall p :: Count(c', p) == Count(c, p)
    ensures forall p: nat {:trigger multiset(free')[p]} ::
      multiset(free')[p] == multiset(free)[p] + if p in s && Count(c', p) == 0 then 1 else 0
  {
    hide WordsSame;
    forall p: nat ensures Count(c', p) == Count(c, p) {
      assert Count(c1, p) == Count(c, p) + s[p];
      assert Count(c1, p) == Count(c', p) + s[p];
    }
  }
}
