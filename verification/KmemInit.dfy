/**
 * Boot: rounding the memory regions to whole pages, building the list of unused pages from them, and moving
 * the head of the list to its final place.
 */
module KmemInit {
  import opened Basics
  import opened Words
  import opened PageTables
  import opened PageWorld
  import opened PageRange
  import opened PageSteps
  import opened Paging

  const WORD64: nat := 0x1_0000_0000_0000_0000
  const LOW: nat := 0x20000

  function RoundUp(s: nat): nat {
    (s + 0xfff) / PAGE * PAGE
  }

  /** Regions as pairs of start and length, ended by a pair of zeros. */
  ghost predicate EndsAt(r: seq<nat>, n: nat) {
    && 2 * n + 1 < |r| && r[2 * n] == 0 && r[2 * n + 1] == 0
    && (forall k {:trigger r[2 * k]} :: 0 <= k < n ==> r[2 * k] != 0 || r[2 * k + 1] != 0)
  }

  function Start(r: seq<nat>, k: nat): nat
    requires 2 * k + 1 < |r|
  {
    r[2 * k]
  }

  function Size(r: seq<nat>, k: nat): nat
    requires 2 * k + 1 < |r|
  {
    r[2 * k + 1]
  }

  /**
   * The regions are disjoint and in range. A region that starts at 0 and holds no whole page would be rounded
   * to the end mark, so there is none.
   */
  ghost predicate RegionsOk(r: seq<nat>, n: nat) {
    && 2 * n + 1 < |r|
    && (forall k :: 0 <= k < n ==> Start(r, k) + Size(r, k) < NX)
    && (forall k :: 0 <= k < n ==> Start(r, k) != 0 || Size(r, k) >= PAGE)
    && (forall j, k :: 0 <= j < n && 0 <= k < n && j != k ==>
        Start(r, j) + Size(r, j) <= Start(r, k) || Start(r, k) + Size(r, k) <= Start(r, j))
  }

  /** Page p lies wholly inside region k. */
  predicate Inside(r: seq<nat>, k: nat, p: nat)
    requires 2 * k + 1 < |r|
  {
    p % PAGE == 0 && Start(r, k) <= p && p + PAGE <= Start(r, k) + Size(r, k)
  }

  /** p is neither low memory nor part of the kernel image. */
  predicate Spare(p: nat, kernelStart: nat, kernelEnd: nat) {
    p > 0x20000 && !(kernelStart <= p <= kernelEnd)
  }

  /** p is to be on the list: a spare page wholly inside one of the first n regions. */
  ghost predicate Wanted(r: seq<nat>, n: nat, kernelStart: nat, kernelEnd: nat, p: nat)
    requires n == 0 || 2 * n - 1 < |r|
  {
    Spare(p, kernelStart, kernelEnd) && exists k: nat :: k < n && Inside(r, k, p)
  }

  /** What rounding makes of a region; a region without a whole page may get a length below zero, as a word. */
  ghost predicate RoundedTo(r: seq<nat>, r': seq<nat>, k: nat)
    requires 2 * k + 1 < |r| && 2 * k + 1 < |r'|
  {
    && Start(r', k) == RoundUp(Start(r, k))
    && Size(r', k) == (WORD64 + Floor(Start(r, k) + Size(r, k)) - RoundUp(Start(r, k))) % WORD64
  }

  lemma RoundUpIs(s: nat)
    ensures RoundUp(s) % PAGE == 0 && s <= RoundUp(s) < s + PAGE && (s > 0 ==> RoundUp(s) > 0)
    ensures Floor(s) % PAGE == 0 && Floor(s) <= s < Floor(s) + PAGE
  {
    PageTimes((s + 0xfff) / PAGE);
    PageTimes(s / PAGE);
  }

  /** A page lies between the rounded ends exactly when it lies wholly inside the region. */
  lemma InsideRounded(s: nat, n: nat, p: nat)
    requires p % PAGE == 0
    ensures RoundUp(s) <= p < Floor(s + n) <==> s <= p && p + PAGE <= s + n
  {
    RoundUpIs(s);
    RoundUpIs(s + n);
    AlignedStep(p, Floor(s + n));
    AlignedStep(RoundUp(s), p);
    AlignedStep(p, RoundUp(s));
    AlignedStep(Floor(s + n), p);
    hide RoundUp, Floor;
  }

  /** Of two different page addresses the smaller is at least a page below. */
  lemma AlignedStep(a: nat, b: nat)
    requires a % PAGE == 0 && b % PAGE == 0
    ensures a < b ==> a + PAGE <= b
  {}

  /** The end the second pass computes from a rounded pair, wrapping as words do. */
  lemma EndRestored(s: nat, n: nat)
    requires s + n < NX
    ensures var start := RoundUp(s); var size := (WORD64 + Floor(s + n) - start) % WORD64;
      (start + size) % WORD64 == Floor(s + n)
    ensures s != 0 || n >= PAGE ==> RoundUp(s) != 0 || (WORD64 + Floor(s + n) - RoundUp(s)) % WORD64 != 0
  {
    RoundUpIs(s);
    RoundUpIs(s + n);
    hide RoundUp, Floor;
  }

  /** Rounding makes an end mark, which hides the regions behind it, exactly of a region at 0 without a whole page. */
  lemma RoundedToMark(s: nat, n: nat)
    requires s + n < NX
    ensures RoundUp(s) == 0 && (WORD64 + Floor(s + n) - RoundUp(s)) % WORD64 == 0 <==> s == 0 && n < PAGE
  {
    EndRestored(s, n);
    RoundUpIs(s + n);
    AlignedStep(0, Floor(s + n));
    hide Floor;
  }

  /** The first k regions are rounded, the others as they were. */
  ghost predicate RoundedSoFar(r: seq<nat>, r': seq<nat>, n: nat, k: nat)
    requires 2 * n + 1 < |r| && |r'| == |r| && k <= n
  {
    && (forall j :: 2 * k <= j < |r| ==> r'[j] == r[j])
    && (forall j :: 0 <= j < k ==> RoundedTo(r, r', j))
  }

  lemma RoundStep(r: seq<nat>, a: seq<nat>, b: seq<nat>, n: nat, k: nat)
    requires 2 * n + 1 < |r| && |a| == |r| && |b| == |r| && k < n && RoundedSoFar(r, a, n, k)
    requires RoundedTo(r, b, k) && forall j :: 0 <= j < |r| && j != 2 * k && j != 2 * k + 1 ==> b[j] == a[j]
    ensures RoundedSoFar(r, b, n, k + 1)
  {
    hide RoundUp, Floor;
    forall j | 0 <= j < k + 1 ensures RoundedTo(r, b, j) {
      if j < k { assert RoundedTo(r, a, j); }
    }
  }

  /** Rounding never produces the end mark. */
  lemma RoundedEnds(r: seq<nat>, r': seq<nat>, n: nat)
    requires EndsAt(r, n) && RegionsOk(r, n) && |r'| == |r| && RoundedSoFar(r, r', n, n)
    ensures EndsAt(r', n)
  {
    hide RoundUp, Floor;
    forall k | 0 <= k < n ensures r'[2 * k] != 0 || r'[2 * k + 1] != 0 {
      assert RoundedTo(r, r', k);
      assert Start(r, k) + Size(r, k) < NX && (Start(r, k) != 0 || Size(r, k) >= PAGE);
      EndRestored(Start(r, k), Size(r, k));
    }
  }

  method RoundRegion(regions: array<nat>, i: nat)
    requires i + 1 < regions.Length && regions[i] + regions[i + 1] < NX
    modifies regions
    ensures regions[i] == RoundUp(old(regions[i]))
    ensures regions[i + 1] == (WORD64 + Floor(old(regions[i] + regions[i + 1])) - RoundUp(old(regions[i]))) % WORD64
    ensures forall j :: 0 <= j < regions.Length && j != i && j != i + 1 ==> regions[j] == old(regions[j])
  {
    var start := regions[i];
    var end := (regions[i] + regions[i + 1]) % WORD64;
    RoundUpIs(start);
    hide Floor;
    start := RoundUp(start) % WORD64;
    hide RoundUp;
    end := Floor(end);
    regions[i] := start;
    regions[i + 1] := (WORD64 + end - start) % WORD64;
  }

  /** First pass: rounds the start of every region up and its end down to a page. */
  method RoundRegions(regions: array<nat>, ghost n: nat)
    requires EndsAt(regions[..], n) && RegionsOk(regions[..], n)
    modifies regions
    ensures EndsAt(regions[..], n) && RoundedSoFar(old(regions[..]), regions[..], n, n)
  {
    hide RoundUp, Floor, RoundedSoFar;
    ghost var r, k := regions[..], 0;
    var i := 0;
    RoundNone(r, n);
    while regions[i] != 0 || regions[i + 1] != 0
      invariant i == 2 * k && k <= n && 2 * n + 1 < regions.Length
      invariant RoundedSoFar(r, regions[..], n, k)
      decreases n - k
    {
      NextRegion(r, regions[..], n, k);
      ghost var a := regions[..];
      RoundRegion(regions, i);
      RoundStep(r, a, regions[..], n, k);
      i := i + 2;
      k := k + 1;
    }
    LastRegion(r, regions[..], n, k);
    RoundedEnds(r, regions[..], n);
  }

  lemma RoundNone(r: seq<nat>, n: nat)
    requires 2 * n + 1 < |r|
    ensures RoundedSoFar(r, r, n, 0)
  {}

  lemma NextRegion(r: seq<nat>, a: seq<nat>, n: nat, k: nat)
    requires EndsAt(r, n) && RegionsOk(r, n) && |a| == |r| && k <= n && RoundedSoFar(r, a, n, k)
    requires a[2 * k] != 0 || a[2 * k + 1] != 0
    ensures k < n && a[2 * k] == Start(r, k) && a[2 * k + 1] == Size(r, k) && Start(r, k) + Size(r, k) < NX
  {
    assert a[2 * k] == r[2 * k] && a[2 * k + 1] == r[2 * k + 1];
  }

  lemma LastRegion(r: seq<nat>, a: seq<nat>, n: nat, k: nat)
    requires EndsAt(r, n) && |a| == |r| && k <= n && RoundedSoFar(r, a, n, k)
    requires a[2 * k] == 0 && a[2 * k + 1] == 0
    ensures k == n
  {
    assert a[2 * k] == r[2 * k] && a[2 * k + 1] == r[2 * k + 1];
    assert r[2 * k] == Start(r, k);
  }

  // ----- building the list

  /** Nothing stands in the way of putting the wanted pages on the list. */
  ghost predicate Clear(m: Memory, w: World, r: seq<nat>, n: nat, kernelStart: nat, kernelEnd: nat)
    requires n == 0 || 2 * n - 1 < |r|
  {
    && (forall p :: p in w.tabs.Values ==> !Wanted(r, n, kernelStart, kernelEnd, p))
    && (forall q, i {:trigger Down(q, i)} :: q in w.tabs && 0 <= i < 512 && Down(q, i) in w.foreign ==>
        !Wanted(r, n, kernelStart, kernelEnd, Floor(Word(m, w, q, i))))
  }

  /** Writing to a page that nothing leads to changes nothing of this. */
  lemma ClearKept(m: Memory, w: World, r: seq<nat>, n: nat, kernelStart: nat, kernelEnd: nat, last: nat, m': Memory,
                  w': World, page: nat)
    requires 2 * n + 1 < |r| && Clear(m, w, r, n, kernelStart, kernelEnd) && WorldOk(m, last, w) && Loose(m, w, page)
    requires OnlyIn(m, m', {page}) && w'.tabs == w.tabs && w'.foreign == w.foreign
    ensures Clear(m', w', r, n, kernelStart, kernelEnd)
  {
    hide Wanted, Floor;
    LooseApart(m, w, page);
    forall q, i | q in w.tabs && 0 <= i < 512 && Down(q, i) in w.foreign
      ensures Word(m', w', q, i) == Word(m, w, q, i)
    {
      TableValue(w, q);
      TableWord(w.tabs[q], i);
      assert Load(m', w.tabs[q] + 8 * i) == Load(m, w.tabs[q] + 8 * i);
    }
    hide WorldOk;
  }

  lemma TableWord(t: nat, i: nat)
    requires t % PAGE == 0 && i < 512
    ensures Floor(t + 8 * i) == t
  {
    SlotInPage(t, i);
  }

  /** The list holds the wanted pages of the first k regions and those of region k below q. */
  ghost predicate Collected(free: seq<nat>, r: seq<nat>, n: nat, k: nat, q: nat, kernelStart: nat, kernelEnd: nat)
    requires 2 * n + 1 < |r| && k <= n
  {
    forall p: nat :: p in free <==>
      && Spare(p, kernelStart, kernelEnd)
      && ((exists j: nat :: j < k && Inside(r, j, p)) || (k < n && Inside(r, k, p) && p < q))
  }

  /** One more page considered. */
  lemma CollectStep(free: seq<nat>, r: seq<nat>, n: nat, k: nat, q: nat, kernelStart: nat, kernelEnd: nat)
    requires 2 * n + 1 < |r| && k < n && RegionsOk(r, n) && Inside(r, k, q)
    requires Collected(free, r, n, k, q, kernelStart, kernelEnd)
    ensures var free' := if Spare(q, kernelStart, kernelEnd) then [q] + free else free;
      Collected(free', r, n, k, q + PAGE, kernelStart, kernelEnd)
    ensures q !in free && IsPage(q) && (Spare(q, kernelStart, kernelEnd) ==> Wanted(r, n, kernelStart, kernelEnd, q))
  {
    hide Spare;
    assert forall j: nat | j < k :: Start(r, j) + Size(r, j) <= Start(r, k) || Start(r, k) + Size(r, k) <= Start(r, j);
    assert Start(r, k) + Size(r, k) < NX;
    forall p: nat | Inside(r, k, p) ensures p < q + PAGE <==> p < q || p == q { AlignedStep(q, p); }
  }

  lemma CollectRegion(free: seq<nat>, r: seq<nat>, n: nat, k: nat, q: nat, kernelStart: nat, kernelEnd: nat)
    requires 2 * n + 1 < |r| && k < n && Collected(free, r, n, k, q, kernelStart, kernelEnd)
    requires forall p: nat :: Inside(r, k, p) ==> p < q
    ensures Collected(free, r, n, k + 1, 0, kernelStart, kernelEnd)
  {
    hide Spare;
  }

  lemma CollectStart(free: seq<nat>, r: seq<nat>, n: nat, k: nat, kernelStart: nat, kernelEnd: nat)
    requires 2 * n + 1 < |r| && k < n && Collected(free, r, n, k, 0, kernelStart, kernelEnd)
    ensures Collected(free, r, n, k, RoundUp(Start(r, k)), kernelStart, kernelEnd)
  {
    forall p: nat | Inside(r, k, p) ensures RoundUp(Start(r, k)) <= p { InsideRounded(Start(r, k), Size(r, k), p); }
    hide Spare, RoundUp;
  }

  lemma RegionEnd(r: seq<nat>, a: seq<nat>, n: nat, k: nat)
    requires EndsAt(a, n) && RegionsOk(r, n) && |a| == |r| && RoundedSoFar(r, a, n, n) && k <= n
    ensures a[2 * k] != 0 || a[2 * k + 1] != 0 <==> k < n
    ensures k < n ==>
      && a[2 * k] == RoundUp(Start(r, k)) && (a[2 * k] + a[2 * k + 1]) % WORD64 == Floor(Start(r, k) + Size(r, k))
  {
    if k < n {
      assert RoundedTo(r, a, k);
      assert a[2 * k] == Start(a, k);
      assert Start(r, k) + Size(r, k) < NX;
      EndRestored(Start(r, k), Size(r, k));
    }
    hide RoundUp, Floor;
  }

  /** Second pass: puts every wanted page on the list. */
  method UnuseRegions(pager: Pager, regions: array<nat>, kernelStart: nat, kernelEnd: nat, ghost r: seq<nat>,
                      ghost n: nat)
    requires |r| == regions.Length && EndsAt(regions[..], n) && RegionsOk(r, n) && RoundedSoFar(r, regions[..], n, n)
    requires pager.Tables() && pager.w.free == [] && Clear(pager.mem, pager.w, r, n, kernelStart, kernelEnd)
    modifies pager`mem, pager`lastUnused, pager`w
    ensures pager.Tables() && pager.w.tabs == old(pager.w).tabs && pager.w.foreign == old(pager.w).foreign
    ensures forall p: nat :: p in pager.w.free <==> Wanted(r, n, kernelStart, kernelEnd, p)
  {
    hide WorldOk, RoundUp, Floor, RoundedSoFar, Collected, Spare, Inside, EndsAt, OnlyIn, IsPage, Clear, Loose;
    var i := 0;
    ghost var k := 0;
    CollectNone(r, n, kernelStart, kernelEnd);
    RegionEnd(r, regions[..], n, k);
    while regions[i] != 0 || regions[i + 1] != 0
      invariant i == 2 * k && k <= n && 2 * n + 1 < regions.Length
      invariant pager.Tables() && pager.w.tabs == old(pager.w).tabs && pager.w.foreign == old(pager.w).foreign
      invariant Collected(pager.w.free, r, n, k, 0, kernelStart, kernelEnd)
      invariant Clear(pager.mem, pager.w, r, n, kernelStart, kernelEnd)
      decreases n - k
    {
      RegionEnd(r, regions[..], n, k);
      CollectStart(pager.w.free, r, n, k, kernelStart, kernelEnd);
      var end := (regions[i] + regions[i + 1]) % WORD64;
      var p := regions[i];
      RoundUpIs(Start(r, k));
      while p < end
        invariant p % PAGE == 0 && p >= RoundUp(Start(r, k))
        invariant pager.Tables() && pager.w.tabs == old(pager.w).tabs && pager.w.foreign == old(pager.w).foreign
        invariant Collected(pager.w.free, r, n, k, p, kernelStart, kernelEnd)
        invariant Clear(pager.mem, pager.w, r, n, kernelStart, kernelEnd)
      {
        InsideAt(r, k, p);
        CollectStep(pager.w.free, r, n, k, p, kernelStart, kernelEnd);
        NextPage(p);
        ghost var free := pager.w.free;
        var page := p;
        p := p + PAGE;
        SpareIs(page, kernelStart, kernelEnd);
        if page >= kernelStart && page <= kernelEnd {
          continue;
        }
        if page <= LOW {
          continue;
        }
        ClearLoose(pager.mem, pager.w, r, n, kernelStart, kernelEnd, page);
        ghost var m1, last1, w1 := pager.mem, pager.lastUnused, pager.w;
        pager.KmemUnuse(page);
        ClearKept(m1, w1, r, n, kernelStart, kernelEnd, last1, pager.mem, pager.w, page);
        assert pager.w.free == [page] + free;
      }
      RegionDone(r, k, p);
      CollectRegion(pager.w.free, r, n, k, p, kernelStart, kernelEnd);
      i := i + 2;
      k := k + 1;
      RegionEnd(r, regions[..], n, k);
    }
    RegionEnd(r, regions[..], n, k);
    CollectAll(pager.w.free, r, n, kernelStart, kernelEnd);
  }

  lemma CollectNone(r: seq<nat>, n: nat, kernelStart: nat, kernelEnd: nat)
    requires 2 * n + 1 < |r|
    ensures Collected([], r, n, 0, 0, kernelStart, kernelEnd)
  {}

  lemma CollectAll(free: seq<nat>, r: seq<nat>, n: nat, kernelStart: nat, kernelEnd: nat)
    requires 2 * n + 1 < |r| && Collected(free, r, n, n, 0, kernelStart, kernelEnd)
    ensures forall p: nat :: p in free <==> Wanted(r, n, kernelStart, kernelEnd, p)
  {
    hide Spare, Inside;
  }

  lemma InsideAt(r: seq<nat>, k: nat, p: nat)
    requires 2 * k + 1 < |r| && p % PAGE == 0 && RoundUp(Start(r, k)) <= p < Floor(Start(r, k) + Size(r, k))
    ensures Inside(r, k, p)
  {
    InsideRounded(Start(r, k), Size(r, k), p);
    hide RoundUp, Floor;
  }

  lemma RegionDone(r: seq<nat>, k: nat, q: nat)
    requires 2 * k + 1 < |r| && q >= Floor(Start(r, k) + Size(r, k))
    ensures forall p: nat :: Inside(r, k, p) ==> p < q
  {
    forall p: nat | Inside(r, k, p) ensures p < q { InsideRounded(Start(r, k), Size(r, k), p); }
    hide RoundUp, Floor;
  }

  lemma NextPage(p: nat)
    requires p % PAGE == 0
    ensures (p + PAGE) % PAGE == 0
  {}

  lemma SpareIs(p: nat, kernelStart: nat, kernelEnd: nat)
    ensures Spare(p, kernelStart, kernelEnd) <==> !(p >= kernelStart && p <= kernelEnd) && !(p <= LOW)
  {}

  lemma ClearLoose(m: Memory, w: World, r: seq<nat>, n: nat, kernelStart: nat, kernelEnd: nat, p: nat)
    requires 2 * n + 1 < |r| && Clear(m, w, r, n, kernelStart, kernelEnd) && Wanted(r, n, kernelStart, kernelEnd, p)
    requires IsPage(p) && p !in w.free
    ensures Loose(m, w, p)
  {
    assert Spare(p, kernelStart, kernelEnd);
    hide Wanted, Floor;
  }

  // ----- the whole of it

  /**
   * Builds the list and moves its head. Afterwards the wanted pages are those on the list, the page that now
   * holds the head, and those that became page tables on the way to it.
   */
  method Initialise(pager: Pager, regions: array<nat>, kernelStart: nat, kernelEnd: nat, bootCr3: nat, ghost n: nat,
                    ghost some: seq<nat>) returns (headPage: nat)
    requires EndsAt(regions[..], n) && RegionsOk(regions[..], n)
    requires pager.Tables() && pager.w.free == [] && Clear(pager.mem, pager.w, regions[..], n, kernelStart, kernelEnd)
    requires Own(pager.w, bootCr3, KMEM_BASE_ADDR)
    requires |some| >= 5 && Distinct(some)
    requires forall p :: p in some ==> Wanted(regions[..], n, kernelStart, kernelEnd, p)
    modifies pager`mem, pager`lastUnused, pager`w, regions
    ensures pager.Tables() && Distinct(pager.w.free) && |pager.w.free| > 0 && pager.lastUnused == pager.w.free[0]
    ensures forall p: nat :: Wanted(old(regions[..]), n, kernelStart, kernelEnd, p) <==>
      p in pager.w.free || p == headPage || (p in pager.w.tabs.Values && p !in old(pager.w).tabs.Values)
    ensures headPage !in pager.w.free && headPage !in pager.w.tabs.Values
    ensures Mapped(pager.mem, pager.w, At(bootCr3, KMEM_BASE_ADDR, 4)) == Some(headPage + MAP_DEFAULT)
  {
    hide WorldOk, RoundUp, Floor, RoundedSoFar, Spare, Inside, EndsAt, OnlyIn, IsPage, Wanted, Own, MappedBut, Reach,
      At, Mapped, Extends, Loose, Distinct;
    ghost var r, w0 := regions[..], pager.w;
    RoundRegions(regions, n);
    UnuseRegions(pager, regions, kernelStart, kernelEnd, r, n);
    ghost var w1, m1, last1 := pager.w, pager.mem, pager.lastUnused;
    EnoughPages(m1, last1, w1, some);
    headPage := pager.KmemGetPage();
    ghost var w2, m2 := pager.w, pager.mem;
    SameOwn(w0, w2, bootCr3, KMEM_BASE_ADDR);
    PagePlain(m2, w2, headPage);
    pager.KmemMap(bootCr3, KMEM_BASE_ADDR, headPage, MAP_DEFAULT);
    ghost var w3, m3 := pager.w, pager.mem;
    MapHere(m2, w2, m3, w3, bootCr3, KMEM_BASE_ADDR, headPage);
    var t := pager.KmemGetPage();
    ghost var w4, last4 := pager.w, pager.lastUnused;
    pager.KmemUnuse(t);
    DropKeeps(m3, last4, w4, pager.mem, pager.w, t);
    pager.lastUnused := t;
    BackAgain(w3);
    SameTabsMaps(m3, w3, w4, At(bootCr3, KMEM_BASE_ADDR, 4));
    KeptAt(m3, w4, pager.mem, pager.w, bootCr3, KMEM_BASE_ADDR);
    Ledger(m1, last1, w1, w2, w3, w0, headPage, m2);
    ListFacts(pager.mem, pager.lastUnused, pager.w);
  }

  ghost function Members(s: seq<nat>): set<nat> {
    set p | p in s
  }

  lemma {:induction false} DistinctIn(s: seq<nat>, t: seq<nat>)
    requires Distinct(s) && forall p :: p in s ==> p in t
    ensures |s| <= |t|
  {
    DistinctCard(s);
    CardBound(t);
    assert Members(s) <= Members(t);
    SubsetCard(Members(s), Members(t));
  }

  lemma SubsetCard(a: set<nat>, b: set<nat>)
    requires a <= b
    ensures |a| <= |b|
  {
    assert b == a + (b - a);
  }

  lemma {:induction false} DistinctCard(s: seq<nat>)
    requires Distinct(s)
    ensures |Members(s)| == |s|
  {
    if s != [] {
      var rest := s[1..];
      DistinctCard(rest);
      assert s[0] !in Members(rest);
      MembersHead(s);
    }
  }

  lemma {:induction false} CardBound(s: seq<nat>)
    ensures |Members(s)| <= |s|
  {
    if s != [] {
      CardBound(s[1..]);
      MembersHead(s);
    }
  }

  lemma MembersHead(s: seq<nat>)
    requires s != []
    ensures Members(s) == Members(s[1..]) + {s[0]}
  {
    assert s == [s[0]] + s[1..];
  }

  lemma EnoughPages(m: Memory, last: nat, w: World, some: seq<nat>)
    requires |some| >= 5 && Distinct(some) && forall p :: p in some ==> p in w.free
    ensures |w.free| >= 5
  {
    DistinctIn(some, w.free);
  }

  lemma SameOwn(w: World, w': World, root: nat, va: nat)
    requires Own(w, root, va) && w'.tabs == w.tabs && w'.foreign == w.foreign
    ensures Own(w', root, va)
  {
    hide At;
  }

  lemma PagePlain(m: Memory, w: World, p: nat)
    requires Loose(m, w, p)
    ensures IsPage(p) && IsFlags(MAP_DEFAULT) && p !in Reach(w)
  {}

  lemma MapHere(m: Memory, w: World, m': Memory, w': World, root: nat, va: nat, page: nat)
    requires MappedBut(m, w, m', w', At(root, va, 4), page + MAP_DEFAULT) && IsPage(page)
    ensures Mapped(m', w', At(root, va, 4)) == Some(page + MAP_DEFAULT)
  {
    AtBounds(root, va, 4);
    EntryFields(page, MAP_DEFAULT);
    hide At, Mapped;
  }

  /** Taking a page and putting it back restores the list. */
  lemma BackAgain(w: World)
    requires |w.free| > 0
    ensures Pushed(Popped(w), w.free[0]) == w
  {
    assert [w.free[0]] + w.free[1..] == w.free;
  }

  lemma KeptAt(m: Memory, w: World, m': Memory, w': World, root: nat, va: nat)
    requires MapsKept(m, w, m', w')
    ensures Mapped(m', w', At(root, va, 4)) == Mapped(m, w, At(root, va, 4))
  {
    AtBounds(root, va, 4);
    hide At, Mapped;
  }

  lemma ListFacts(m: Memory, last: nat, w: World)
    requires WorldOk(m, last, w)
    ensures Distinct(w.free) && (|w.free| > 0 ==> last == w.free[0])
  {}

  /** Where the pages of the list have gone. */
  lemma Ledger(m1: Memory, last1: nat, w1: World, w2: World, w3: World, w0: World, headPage: nat, m2: Memory)
    requires WorldOk(m1, last1, w1) && |w1.free| > 0 && w2 == Popped(w1) && headPage == w1.free[0]
    requires Loose(m2, w2, headPage)
    requires Extends(w2, w3) && Reach(w3) == Reach(w2) && w1.tabs == w0.tabs
    ensures forall p: nat ::
      p in w1.free <==> p in w3.free || p == headPage || (p in w3.tabs.Values && p !in w0.tabs.Values)
    ensures headPage !in w3.free && headPage !in w3.tabs.Values
  {
    PoppedIs(w1);
    LedgerSplit(m1, last1, w1, w0);
    hide WorldOk, Extends, Loose;
    SuffixIn(w2, w3);
    LooseOut(m2, w2, headPage);
    forall p: nat ensures p in Reach(w3) <==> p in w2.tabs.Values || p in w2.free {}
  }

  lemma PoppedIs(w: World)
    requires |w.free| > 0
    ensures forall p: nat :: p in w.free <==> p == w.free[0] || p in Popped(w).free
  {
    assert w.free == [w.free[0]] + w.free[1..];
  }

  lemma LedgerSplit(m: Memory, last: nat, w1: World, w0: World)
    requires WorldOk(m, last, w1) && w1.tabs == w0.tabs
    ensures forall p :: p in w1.free ==> p !in w0.tabs.Values
  {}

  lemma LooseOut(m: Memory, w: World, p: nat)
    requires Loose(m, w, p)
    ensures p !in Reach(w)
  {}
}
