/**
 * The counts of the memory manager against what the live roots owe: how every step of an operation keeps them even.
 */
module PageBooks {
  import opened Basics
  import opened Words
  import opened PageTables
  import opened PageWorld
  import opened PageRange
  import opened PageSteps
  import opened PageVisits
  import opened PageOwed
  import opened PageLedger

  /**
   * Every page is counted as often as the live roots lead to it, over and above base and the references that were
   * lost; the pages under management that are not counted are on the list.
   */
  ghost predicate Even(base: map<nat, nat>, c: map<nat, nat>, owed: multiset<nat>, free: seq<nat>, pool: set<nat>) {
    CountsMore(base, c, owed) && Pooled(free, c, pool)
  }

  /** A page taken off the list, and counted. */
  lemma EvenTaken(base: map<nat, nat>, c: map<nat, nat>, owed: multiset<nat>, free: seq<nat>, pool: set<nat>, t: nat)
    requires Even(base, c, owed, free, pool) && |free| > 0 && t == free[0]
    ensures Even(base, c[t := Count(c, t) + 1], owed + multiset{t}, free[1..], pool)
    ensures Count(c, t) == 0 && t != 0 && t !in owed && t !in free[1..]
  {
    var c' := c[t := Count(c, t) + 1];
    assert free == [t] + free[1..];
    assert multiset(free) == multiset{t} + multiset(free[1..]);
    PooledAt(free, c, pool, t);
    CountAt(base, c, owed, t);
    assert multiset(free)[t] == 1;
    hide Count;
    CountRaised(c, t);
    forall p: nat ensures Count(c', p) == Count(base, p) + (owed + multiset{t})[p] { CountAt(base, c, owed, p); }
    forall p: nat ensures multiset(free[1..])[p] == if p in pool && Count(c', p) == 0 then 1 else 0 {
      assert multiset(free)[p] == if p in pool && Count(c, p) == 0 then 1 else 0;
    }
    forall p: nat | Count(c', p) > 0 ensures p in pool { assert Count(c, p) >= 0; }
  }

  lemma CountRaised(c: map<nat, nat>, t: nat)
    ensures forall p :: Count(c[t := Count(c, t) + 1], p) == Count(c, p) + if p == t then 1 else 0
  {}

  /** A page counted once more. */
  lemma EvenRaised(base: map<nat, nat>, c: map<nat, nat>, owed: multiset<nat>, free: seq<nat>, pool: set<nat>,
                   page: nat)
    requires Even(base, c, owed, free, pool) && page in owed
    ensures Even(base, c[page := Count(c, page) + 1], owed + multiset{page}, free, pool) && Count(c, page) > 0
  {
    var c' := c[page := Count(c, page) + 1];
    CountAt(base, c, owed, page);
    hide Count;
    CountRaised(c, page);
    forall p: nat ensures Count(c', p) == Count(base, p) + (owed + multiset{page})[p] { CountAt(base, c, owed, p); }
    forall p: nat ensures multiset(free)[p] == if p in pool && Count(c', p) == 0 then 1 else 0 {
      assert multiset(free)[p] == if p in pool && Count(c, p) == 0 then 1 else 0;
    }
    forall p: nat | Count(c', p) > 0 ensures p in pool { assert Count(c, p) >= 0; }
  }

  /** A page counted once less; it is on the list if that was the last time. */
  lemma EvenDropped(base: map<nat, nat>, c: map<nat, nat>, owed: multiset<nat>, free: seq<nat>, pool: set<nat>,
                    page: nat)
    requires Even(base, c, owed + multiset{page}, free, pool)
    ensures Count(c, page) > 0 && page != 0 && page !in free && (Count(c, page) == 1 ==> page !in owed)
    ensures Even(base, Lowered(c, page), owed, if Count(c, page) == 1 then [page] + free else free, pool)
  {
    var c' := Lowered(c, page);
    var free': seq<nat> := if Count(c, page) == 1 then [page] + free else free;
    CountAt(base, c, owed + multiset{page}, page);
    PooledAt(free, c, pool, page);
    PushedList(free, page);
    hide Lowered, Count;
    forall p: nat ensures Count(c', p) == Count(base, p) + owed[p] {
      CountAt(base, c, owed + multiset{page}, p);
      LoweredCount(c, page, p);
    }
    forall p: nat ensures multiset(free')[p] == if p in pool && Count(c', p) == 0 then 1 else 0 {
      LoweredCount(c, page, p);
      assert multiset(free)[p] == if p in pool && Count(c, p) == 0 then 1 else 0;
    }
    forall p: nat | Count(c', p) > 0 ensures p in pool { LoweredCount(c, page, p); }
  }

  lemma PushedList(free: seq<nat>, page: nat)
    ensures multiset([page] + free) == multiset(free) + multiset{page}
  {}

  // ----- an entry exchanged

  lemma LostTotal(lost: multiset<nat>, total: multiset<nat>, total': multiset<nat>, gone: multiset<nat>,
                  come: multiset<nat>)
    requires total' + gone == total + come
    ensures (lost + gone) + total' == (lost + total) + come
  {
    assert (lost + gone) + total' == lost + (total' + gone);
    assert (lost + total) + come == lost + (total + come);
  }

  /** The page that a place maps. */
  ghost function PlaceRefers(x: Option<nat>): multiset<nat> {
    match x case None => multiset{} case Some(e) => multiset{PageOf(e)}
  }

  lemma PlaceIs(m: Memory, w: World, p: Pos, i: nat)
    requires p in w.tabs && |p.path| == 3
    ensures Referred(Load(m, w.tabs[p] + 8 * i)) == PlaceRefers(Mapped(m, w, Down(p, i)))
  {
    DownUp(p, i);
  }

  // ----- taking a page

  lemma PoppedOwed(m: Memory, last: nat, w: World, roots: map<nat, nat>, s: multiset<nat>)
    requires Structured(m, last, w, roots) && |w.free| > 0 && WindowsApart(m, w, s)
    ensures Structured(m, Load(m, last), Popped(w), roots) && WindowsApart(m, Popped(w), s)
    ensures Unshared(m, Popped(w), w.free[0]) && Reach(Popped(w)) <= Reach(w)
  {
    hide Sealed, Avoids, Visits, Reach, Load, WorldOk, TargetsKept, Unshared, Loose;
    PopOk(m, last, w);
    PoppedTargets(m, last, w);
    assert w.free[0] in w.free;
    UnusedUnshared(m, last, w, w.free[0]);
    UnsharedPopped(m, w, w.free[0]);
    FewerReach(w);
    KeptSelf(m, w, Reach(w));
    SealedStays(m, last, w, m, Popped(w));
  }

  lemma PoppedTargets(m: Memory, last: nat, w: World)
    requires WorldOk(m, last, w) && |w.free| > 0
    ensures TabsStay(w, Popped(w)) && TargetsKept(m, w, m, Popped(w))
  {
    hide FreeOk, EntriesOk;
    assert ForeignOk(w);
  }

  lemma UnsharedPopped(m: Memory, w: World, page: nat)
    requires Unshared(m, w, page) && |w.free| > 0
    ensures Unshared(m, Popped(w), page)
  {}

  lemma FewerReach(w: World)
    requires |w.free| > 0
    ensures Reach(Popped(w)) <= Reach(w)
  {
    forall f | f in Popped(w).free ensures f in w.free { assert f in w.free[1..]; }
  }

  // ----- the state of the memory manager

  /** What the operations on pages work on; lost holds the references that no root leads to any more. */
  datatype Snap = Snap(mem: Memory, last: nat, w: World, counts: map<nat, nat>, lost: multiset<nat>)

  /** What they leave alone: the live roots, the counts from before, and the pages under management. */
  datatype Frame = Frame(roots: map<nat, nat>, ids: seq<nat>, base: map<nat, nat>, pool: set<nat>)

  ghost function Owed(f: Frame, s: Snap): multiset<nat> {
    Total(s.mem, f.roots, f.ids)
  }

  /** Tables, list and counts are in order. */
  ghost predicate Whole(f: Frame, s: Snap) {
    && Structured(s.mem, s.last, s.w, f.roots) && Named(f.roots, f.ids) && WindowsApart(s.mem, s.w, Owed(f, s))
    && Even(f.base, s.counts, s.lost + Owed(f, s), s.w.free, f.pool)
  }

  ghost predicate Raised(c: map<nat, nat>, c': map<nat, nat>, page: nat) {
    c' == c[page := Count(c, page) + 1]
  }

  /** A table built on the way, and counted. */
  lemma TableStep(f: Frame, s: Snap, s': Snap, id: nat, p: Pos, i: nat, t: nat)
    requires Whole(f, s) && id in f.roots && f.roots[id] == p.root && DigitOf(p, i, 0) != 384 && |p.path| < 3
    requires Linked(s.mem, s.w, s'.mem, s'.w, p, i, t) && WorldOk(s'.mem, s'.last, s'.w)
    requires Raised(s.counts, s'.counts, t) && s'.lost == s.lost
    ensures Whole(f, s') && OthersOwe(s.mem, s'.mem, f.roots, id) && t !in s'.w.free
  {
    hide Structured, Named, WindowsApart, Even, WorldOk, Total, WordsBut, OnlyIn, Load, OthersOwe;
    TableOwed(s.mem, s.last, s.w, s'.mem, s'.last, s'.w, f.roots, f.ids, id, p, i, t);
    EvenTaken(f.base, s.counts, s.lost + Owed(f, s), s.w.free, f.pool, t);
    assert s.lost + Owed(f, s) + multiset{t} == s.lost + Owed(f, s');
  }

  /** An entry of a page that now leads to a page just taken, which is counted. */
  lemma PlaceStep(f: Frame, s: Snap, s': Snap, id: nat, p: Pos, i: nat, t: nat, e: nat)
    requires Whole(f, s) && id in f.roots && f.roots[id] == p.root && |p.path| == 3 && p.path[0] != 384 && p in s.w.tabs
    requires |s.w.free| > 0 && t == s.w.free[0] && s'.w == Popped(s.w) && Referred(e) == multiset{t}
    requires LeafSet(s.mem, s'.w, s'.mem, p, i, e) && WorldOk(s'.mem, s'.last, s'.w) && s'.last == Load(s.mem, s.last)
    requires Raised(s.counts, s'.counts, t) && s'.lost == s.lost + Referred(Load(s.mem, s.w.tabs[p] + 8 * i))
    ensures Whole(f, s') && OthersOwe(s.mem, s'.mem, f.roots, id) && Count(s'.counts, t) == 1
  {
    hide Structured, Named, WindowsApart, Even, WorldOk, Total, WordsBut, OnlyIn, Load, OthersOwe, Unshared,
      TargetsKept, Referred;
    PoppedOwed(s.mem, s.last, s.w, f.roots, Owed(f, s));
    LeafOwed(s.mem, s'.last, s'.w, s'.mem, f.roots, f.ids, id, p, i, e);
    assert t in Owed(f, s) + multiset{t};
    ExchangedIn(Owed(f, s), Owed(f, s'), Referred(Load(s.mem, s.w.tabs[p] + 8 * i)), t);
    WindowsStay(s.mem, s'.w, s'.mem, s'.w, Owed(f, s), Owed(f, s'));
    EvenTaken(f.base, s.counts, s.lost + Owed(f, s), s.w.free, f.pool, t);
    LostTotal(s.lost, Owed(f, s), Owed(f, s'), Referred(Load(s.mem, s.w.tabs[p] + 8 * i)), multiset{t});
  }

  lemma ExchangedIn(total: multiset<nat>, total': multiset<nat>, gone: multiset<nat>, t: nat)
    requires total' + gone == total + multiset{t}
    ensures forall x :: x in total' ==> x in total || x == t
  {
    forall x | x in total' ensures x in total || x == t {
      assert x in total' + gone;
      assert x in total + multiset{t};
    }
  }

  /** An entry of a page that now leads to a page which is owed already. */
  lemma ShareStep(f: Frame, s: Snap, s': Snap, id: nat, p: Pos, i: nat, e: nat)
    requires Whole(f, s) && id in f.roots && f.roots[id] == p.root && |p.path| == 3 && p.path[0] != 384 && p in s.w.tabs
    requires Present(e) && PageOf(e) in Owed(f, s) && s'.w == s.w && s'.last == s.last
    requires LeafSet(s.mem, s.w, s'.mem, p, i, e) && WorldOk(s'.mem, s'.last, s'.w)
    requires Raised(s.counts, s'.counts, PageOf(e)) && s'.lost == s.lost + Referred(Load(s.mem, s.w.tabs[p] + 8 * i))
    ensures Whole(f, s') && OthersOwe(s.mem, s'.mem, f.roots, id) && Count(s.counts, PageOf(e)) > 0
  {
    hide Structured, Named, WindowsApart, Even, WorldOk, Total, WordsBut, OnlyIn, Load, OthersOwe, Unshared,
      TargetsKept, PageOf, LeafSet;
    assert Referred(e) == multiset{PageOf(e)};
    hide Referred, Present;
    LeafOwed(s.mem, s.last, s.w, s'.mem, f.roots, f.ids, id, p, i, e);
    ExchangedIn(Owed(f, s), Owed(f, s'), Referred(Load(s.mem, s.w.tabs[p] + 8 * i)), PageOf(e));
    WindowsStay(s.mem, s.w, s'.mem, s.w, Owed(f, s), Owed(f, s'));
    EvenRaised(f.base, s.counts, s.lost + Owed(f, s), s.w.free, f.pool, PageOf(e));
    LostTotal(s.lost, Owed(f, s), Owed(f, s'), Referred(Load(s.mem, s.w.tabs[p] + 8 * i)), multiset{PageOf(e)});
  }

  /** An entry of a page that keeps its page, or loses it for good. */
  lemma FlagStep(f: Frame, s: Snap, s': Snap, id: nat, p: Pos, i: nat, e: nat)
    requires Whole(f, s) && id in f.roots && f.roots[id] == p.root && |p.path| == 3 && p.path[0] != 384 && p in s.w.tabs
    requires s'.w == s.w && s'.last == s.last && s'.counts == s.counts
    requires LeafSet(s.mem, s.w, s'.mem, p, i, e) && WorldOk(s'.mem, s'.last, s'.w)
    requires Referred(e) == Referred(Load(s.mem, s.w.tabs[p] + 8 * i)) || Referred(e) == multiset{}
    requires s'.lost == s.lost + (Referred(Load(s.mem, s.w.tabs[p] + 8 * i)) - Referred(e))
    ensures Whole(f, s') && OthersOwe(s.mem, s'.mem, f.roots, id)
  {
    hide Structured, Named, WindowsApart, Even, WorldOk, Total, WordsBut, OnlyIn, Load, OthersOwe, Unshared,
      TargetsKept, Referred, PageOf;
    LeafOwed(s.mem, s.last, s.w, s'.mem, f.roots, f.ids, id, p, i, e);
    KeptOrLost(s.lost, Owed(f, s), Owed(f, s'), Referred(Load(s.mem, s.w.tabs[p] + 8 * i)), Referred(e));
    WindowsStay(s.mem, s.w, s'.mem, s.w, Owed(f, s), Owed(f, s'));
  }

  lemma KeptOrLost(lost: multiset<nat>, total: multiset<nat>, total': multiset<nat>, gone: multiset<nat>,
                   come: multiset<nat>)
    requires total' + gone == total + come && (come == gone || come == multiset{})
    ensures (lost + (gone - come)) + total' == lost + total && forall x :: x in total' ==> x in total
  {
    if come == gone {
      SumCancels(total, total', gone);
      assert gone - come == multiset{};
    } else {
      assert gone - come == gone;
      assert total' + gone == total;
    }
  }

  lemma SumCancels(a: multiset<nat>, b: multiset<nat>, d: multiset<nat>)
    requires b + d == a + d
    ensures b == a
  {
    assert (b + d) - d == b && (a + d) - d == a;
  }

  // ----- an entry cleared

  /** The page of an entry, counted once: without the entry nothing leads to it. */
  lemma LastReference(f: Frame, s: Snap, id: nat, p: Pos, i: nat, page: nat)
    requires Whole(f, s) && id in f.roots && f.roots[id] == p.root && |p.path| == 3 && p in s.w.tabs && p.path[0] != 384
    requires i < 512
    requires Referred(Load(s.mem, s.w.tabs[p] + 8 * i)) == multiset{page}
    ensures Count(s.counts, page) > 0
    ensures Count(s.counts, page) == 1 ==> Loose(s.mem, s.w, page)
    ensures EntryCleared(f, s, id, p, i, page, s.mem[s.w.tabs[p] + 8 * i := 0])
  {
    var m1 := s.mem[s.w.tabs[p] + 8 * i := 0];
    ClearedTotal(f, s, id, p, i, page, m1);
    hide *;
    ClearedLoose(f, s, id, p, i, page, m1);
  }

  /** What holds once the entry is cleared. */
  ghost predicate EntryCleared(f: Frame, s: Snap, id: nat, p: Pos, i: nat, page: nat, m1: Memory) {
    && p in s.w.tabs && m1 == s.mem[s.w.tabs[p] + 8 * i := 0]
    && Structured(m1, s.last, s.w, f.roots) && Named(f.roots, f.ids) && TargetsKept(s.mem, s.w, m1, s.w)
    && Owed(f, s) == Total(m1, f.roots, f.ids) + multiset{page} && WindowsApart(m1, s.w, Total(m1, f.roots, f.ids))
    && OthersOwe(s.mem, m1, f.roots, id) && IsPage(page)
    && Even(f.base, Lowered(s.counts, page), s.lost + Total(m1, f.roots, f.ids),
      if Count(s.counts, page) == 1 then [page] + s.w.free else s.w.free, f.pool)
    && Count(s.counts, page) > 0 && page != 0 && page !in s.w.free
    && (Count(s.counts, page) == 1 ==> page !in Total(m1, f.roots, f.ids))
  }

  lemma ClearedTotal(f: Frame, s: Snap, id: nat, p: Pos, i: nat, page: nat, m1: Memory)
    requires Whole(f, s) && id in f.roots && f.roots[id] == p.root && |p.path| == 3 && p in s.w.tabs && p.path[0] != 384
    requires i < 512
    requires Referred(Load(s.mem, s.w.tabs[p] + 8 * i)) == multiset{page} && m1 == s.mem[s.w.tabs[p] + 8 * i := 0]
    ensures EntryCleared(f, s, id, p, i, page, m1)
  {
    hide Structured, Named, TargetsKept, Total, WindowsApart, OthersOwe, Even, Lowered, IsPage, LeafSet, Whole,
      Referred, Owed, Count, WorldOk;
    ClearedLeaf(f, s, id, p, i, page, m1);
    var left := Total(m1, f.roots, f.ids);
    LeafOwed(s.mem, s.last, s.w, m1, f.roots, f.ids, id, p, i, 0);
    LeftOver(s.mem, s.w, m1, Owed(f, s), left, page, s.lost);
    EvenDropped(f.base, s.counts, s.lost + left, s.w.free, f.pool, page);
    if Count(s.counts, page) == 1 { NotLeft(s.lost, left, page); }
  }

  lemma NotLeft(lost: multiset<nat>, left: multiset<nat>, page: nat)
    requires page !in lost + left
    ensures page !in left
  {}

  lemma LeftOver(m: Memory, w: World, m1: Memory, owed: multiset<nat>, left: multiset<nat>, page: nat,
                 lost: multiset<nat>)
    requires left + multiset{page} == owed + multiset{} && WindowsApart(m, w, owed) && TargetsKept(m, w, m1, w)
    ensures owed == left + multiset{page} && lost + owed == (lost + left) + multiset{page} && WindowsApart(m1, w, left)
  {
    assert lost + (left + multiset{page}) == (lost + left) + multiset{page};
    forall x | x in left ensures x in owed { assert x in left + multiset{page}; }
    hide *;
    WindowsStay(m, w, m1, w, owed, left);
  }

  lemma ClearedLeaf(f: Frame, s: Snap, id: nat, p: Pos, i: nat, page: nat, m1: Memory)
    requires Whole(f, s) && id in f.roots && f.roots[id] == p.root && |p.path| == 3 && p in s.w.tabs && p.path[0] != 384
    requires i < 512
    requires Referred(Load(s.mem, s.w.tabs[p] + 8 * i)) == multiset{page} && m1 == s.mem[s.w.tabs[p] + 8 * i := 0]
    ensures Structured(s.mem, s.last, s.w, f.roots) && Named(f.roots, f.ids) && WindowsApart(s.mem, s.w, Owed(f, s))
    ensures Even(f.base, s.counts, s.lost + Owed(f, s), s.w.free, f.pool) && Owed(f, s) == Total(s.mem, f.roots, f.ids)
    ensures WorldOk(m1, s.last, s.w) && LeafSet(s.mem, s.w, m1, p, i, 0) && Referred(0) == multiset{} && IsPage(page)
  {
    hide Sealed, Planted, Named, WindowsApart, Even, Total;
    LeafOk(s.mem, s.last, s.w, p, i, 0);
    EntryWords(s.mem, s.mem, s.w, {}, p, i, 0);
    LeafReach(s.mem, s.last, s.w, p, i, 0);
    ReferredPage(Load(s.mem, s.w.tabs[p] + 8 * i), page);
    hide WorldOk, WordsBut, OnlyIn;
  }

  lemma ReferredPage(e: nat, page: nat)
    requires Referred(e) == multiset{page}
    ensures IsPage(page) && Present(e) && PageOf(e) == page
  {
    assert multiset{PageOf(e)}[page] == 1;
    PageAligned(e);
  }

  lemma ClearedLoose(f: Frame, s: Snap, id: nat, p: Pos, i: nat, page: nat, m1: Memory)
    requires Whole(f, s) && EntryCleared(f, s, id, p, i, page, m1) && p in s.w.tabs
    ensures Count(s.counts, page) == 1 ==> Loose(s.mem, s.w, page) && Loose(m1, s.w, page)
  {
    hide Structured, Named, Even, Total, OthersOwe, Visits, Target, Lowered;
    assert page in Owed(f, s);
    if Count(s.counts, page) == 1 {
      forall q | q in s.w.foreign && Window(q) && Up(q) in s.w.tabs ensures Target(m1, s.w, q) != page {
        assert Target(m1, s.w, q) == Target(s.mem, s.w, q);
      }
      UnowedLoose(m1, s.last, s.w, f.roots, f.ids, page);
      LooseBefore(s.mem, s.w, m1, page);
    }
  }

  lemma LooseBefore(m: Memory, w: World, m1: Memory, page: nat)
    requires Loose(m1, w, page) && TargetsKept(m, w, m1, w)
    ensures Loose(m, w, page)
  {
    forall q, i | q in w.tabs && 0 <= i < 512 && Down(q, i) in w.foreign ensures Floor(Word(m, w, q, i)) != page {
      DownUp(q, i);
      assert Target(m, w, Down(q, i)) == Target(m1, w, Down(q, i));
    }
  }

  /** An entry of a page cleared, its page counted once less, and put on the list if that was the last time. */
  lemma DropStep(f: Frame, s: Snap, s': Snap, id: nat, p: Pos, i: nat, page: nat)
    requires Whole(f, s) && p in s.w.tabs && i < 512
    requires EntryCleared(f, s, id, p, i, page, s.mem[s.w.tabs[p] + 8 * i := 0])
    requires Count(s.counts, page) == 1 ==> Loose(s.mem, s.w, page)
    requires s'.counts == Lowered(s.counts, page) && s'.lost == s.lost
    requires if Count(s.counts, page) == 1
      then s'.mem == s.mem[page := s.last][s.w.tabs[p] + 8 * i := 0] && s'.w == Pushed(s.w, page) && s'.last == page
      else s'.mem == s.mem[s.w.tabs[p] + 8 * i := 0] && s'.w == s.w && s'.last == s.last
    ensures Whole(f, s') && OthersOwe(s.mem, s'.mem, f.roots, id)
  {
    if Count(s.counts, page) == 1 {
      hide *;
      var m1 := s.mem[s.w.tabs[p] + 8 * i := 0];
      ClearedLoose(f, s, id, p, i, page, m1);
      SlotApart(f, s, p, i, page);
      Swapped(s.mem, page, s.last, s.w.tabs[p] + 8 * i, 0);
      ClearedPush(f, s, id, p, i, page, m1);
      assert s' == Snap(m1[page := s.last], page, Pushed(s.w, page), Lowered(s.counts, page), s.lost);
    } else {
      hide Structured, Named, Even, Total, WindowsApart, OthersOwe, Lowered;
    }
  }

  lemma Swapped(m: Memory, a: nat, x: nat, b: nat, y: nat)
    requires a != b
    ensures m[a := x][b := y] == m[b := y][a := x]
  {}

  lemma ClearedPush(f: Frame, s: Snap, id: nat, p: Pos, i: nat, page: nat, m1: Memory)
    requires p in s.w.tabs && EntryCleared(f, s, id, p, i, page, m1) && Count(s.counts, page) == 1
    requires Loose(m1, s.w, page)
    ensures Whole(f, Snap(m1[page := s.last], page, Pushed(s.w, page), Lowered(s.counts, page), s.lost))
    ensures OthersOwe(s.mem, m1[page := s.last], f.roots, id)
  {
    hide Structured, Named, Even, Total, Lowered, WindowsApart, RootVisits, TargetsKept, Loose, OthersOwe, Whole;
    PushStep(f, m1, s.last, s.w, Lowered(s.counts, page), s.lost, page);
    OthersTwice(s.mem, m1, m1[page := s.last], f.roots, id);
  }

  lemma PushStep(f: Frame, m: Memory, last: nat, w: World, c: map<nat, nat>, lost: multiset<nat>, page: nat)
    requires Structured(m, last, w, f.roots) && Named(f.roots, f.ids) && WindowsApart(m, w, Total(m, f.roots, f.ids))
    requires Even(f.base, c, lost + Total(m, f.roots, f.ids), [page] + w.free, f.pool)
    requires page !in Total(m, f.roots, f.ids) && Loose(m, w, page)
    ensures Whole(f, Snap(m[page := last], page, Pushed(w, page), c, lost))
    ensures forall x :: x in f.roots ==> RootVisits(m[page := last], f.roots[x]) == RootVisits(m, f.roots[x])
  {
    hide Structured, Named, Even, Total, WindowsApart, RootVisits, Loose;
    PushOwed(m, last, w, f.roots, f.ids, page);
  }

  lemma OthersTwice(m: Memory, m1: Memory, m': Memory, roots: map<nat, nat>, id: nat)
    requires OthersOwe(m, m1, roots, id)
    requires forall x :: x in roots ==> RootVisits(m', roots[x]) == RootVisits(m1, roots[x])
    ensures OthersOwe(m, m', roots, id)
  {
    hide RootVisits;
  }

  lemma SlotApart(f: Frame, s: Snap, p: Pos, i: nat, page: nat)
    requires Whole(f, s) && p in s.w.tabs && i < 512 && Loose(s.mem, s.w, page)
    ensures s.w.tabs[p] + 8 * i != page
  {
    Apart(s.mem, s.last, s.w, p, i, page);
    hide *;
  }

  /** An entry of a table is not the first word of a page that holds no table. */
  lemma Apart(m: Memory, last: nat, w: World, p: Pos, i: nat, page: nat)
    requires WorldOk(m, last, w) && p in w.tabs && i < 512 && Loose(m, w, page)
    ensures w.tabs[p] + 8 * i != page
  {
    TableValue(w, p);
    SlotInPage(w.tabs[p], i);
    FirstWord(page);
  }

  // ----- places, for the operations

  /** The walk for va stays within unshared tables, and away from the window. */
  ghost predicate Private(w: World, root: nat, va: nat) {
    Own(w, root, va) && Index(va, 0) != 384
  }

  lemma WholeTables(f: Frame, s: Snap)
    requires Whole(f, s)
    ensures WorldOk(s.mem, s.last, s.w)
  {
    hide WorldOk, Sealed, Planted, Named, WindowsApart, Even, Owed;
  }

  lemma OthersSame(m: Memory, roots: map<nat, nat>, id: nat)
    ensures OthersOwe(m, m, roots, id)
  {
    hide RootVisits;
  }

  lemma OthersChain(m: Memory, m1: Memory, m': Memory, roots: map<nat, nat>, id: nat)
    requires OthersOwe(m, m1, roots, id) && OthersOwe(m1, m', roots, id)
    ensures OthersOwe(m, m', roots, id)
  {
    hide RootVisits;
  }

  lemma {:induction false} FirstDigit(root: nat, va: nat, n: nat)
    ensures DigitOf(At(root, va, n), Index(va, n), 0) == Index(va, 0)
    decreases n
  {
    hide Index;
    if n > 0 { FirstDigit(root, va, n - 1); }
  }

  /** The place of the last table on the way, and that of the page. */
  lemma PlacePlain(root: nat, va: nat)
    ensures |At(root, va, 3).path| == 3 && At(root, va, 3).path[0] == Index(va, 0) && At(root, va, 3).root == root
    ensures At(root, va, 4) == Down(At(root, va, 3), Index(va, 3))
  {
    hide Index;
    FirstDigit(root, va, 3);
  }

  /** A page taken from the list, and counted. */
  lemma CountedStep(w0: World, w1: World, w: World, c0: map<nat, nat>, c1: map<nat, nat>, c: map<nat, nat>, t: nat)
    requires CountsGrow(w0, w1, c0, c1) && Raised(c1, c, t) && |w1.free| > 0 && t == w1.free[0]
    requires w.free == w1.free[1..] && t !in w.free
    requires forall f :: f in w1.free ==> f in w0.free
    ensures CountsGrow(w0, w, c0, c)
  {
    hide CountsGrow;
    forall f | f in w.free ensures f in w1.free { assert f in w1.free[1..]; }
    GrowStep(w0, w1, w, c0, c1, t);
  }

  lemma FreshEntry(t: nat)
    requires IsPage(t)
    ensures Referred(t + MAP_DATA) == multiset{t} && PageOf(t + MAP_DATA) == t && Present(t + MAP_DATA)
  {
    EntryFields(t, MAP_DATA);
    DataPresent();
    hide PageOf, Present;
  }

  lemma ReferredIs(e: nat)
    ensures Present(e) ==> Referred(e) == multiset{PageOf(e)}
  {}

  lemma ReferredFlags(e: nat, flags: nat)
    requires Present(e) && IsFlags(flags)
    ensures Referred(PageOf(e) + flags) == if Present(flags) then Referred(e) else multiset{}
    ensures Referred(e) == multiset{PageOf(e)}
  {
    PageAligned(e);
    EntryFields(PageOf(e), flags);
    hide PageOf, Present;
  }

  /** What the entry referred to is what was mapped, before the tables on the way were built. */
  lemma PlaceWas(m0: Memory, w0: World, m1: Memory, w1: World, root: nat, va: nat)
    requires MapsKept(m0, w0, m1, w1) && At(root, va, 3) in w1.tabs
    ensures Referred(Load(m1, w1.tabs[At(root, va, 3)] + 8 * Index(va, 3))) ==
      PlaceRefers(Mapped(m0, w0, At(root, va, 4)))
  {
    PlacePlain(root, va);
    AtBounds(root, va, 4);
    hide At, Index, Mapped, Referred, PlaceRefers, Load;
    PlaceIs(m1, w1, At(root, va, 3), Index(va, 3));
  }

  lemma PoppedExtends(w0: World, w1: World)
    requires Extends(w0, w1) && |w1.free| > 0
    ensures Extends(w0, Popped(w1))
  {
    FewerReach(w1);
    hide Reach;
  }

  lemma ButAfterPop(m0: Memory, w0: World, m1: Memory, w1: World, m: Memory, q: Pos, e: nat)
    requires MapsKept(m0, w0, m1, w1) && |w1.free| > 0 && MappedBut(m1, Popped(w1), m, Popped(w1), q, e)
    ensures MappedBut(m0, w0, m, Popped(w1), q, e)
  {
    hide Mapped;
    forall x | EntryPos(x) ensures Mapped(m1, Popped(w1), x) == Mapped(m0, w0, x) {
      SameTabsMaps(m1, w1, Popped(w1), x);
      assert Mapped(m1, w1, x) == Mapped(m0, w0, x);
    }
    forall x | EntryPos(x)
      ensures Mapped(m, Popped(w1), x) == if x == q then (if Present(e) then Some(e) else None) else Mapped(m0, w0, x)
    {
      assert Mapped(m1, Popped(w1), x) == Mapped(m0, w0, x);
    }
  }

  /** A page mapped under a live root is owed. */
  lemma MappedOwed(f: Frame, s: Snap, id: nat, root: nat, va: nat, e: nat)
    requires Whole(f, s) && id in f.roots && f.roots[id] == root && Index(va, 0) != 384
    requires Mapped(s.mem, s.w, At(root, va, 4)) == Some(e)
    ensures Present(e) && PageOf(e) in Owed(f, s)
  {
    PlacePlain(root, va);
    AtBounds(root, va, 4);
    assert At(root, va, 4).path[0] == Index(va, 0) && Present(e);
    WholeTables(f, s);
    assert Named(f.roots, f.ids);
    hide *;
    PageMet(s.mem, s.last, s.w, At(root, va, 4), e);
    RootOwed(s.mem, f.roots, f.ids, id);
    OwedAll(f, s);
  }

  lemma OwedAll(f: Frame, s: Snap)
    ensures Owed(f, s) == Total(s.mem, f.roots, f.ids)
  {}

  // ----- ranges of places

  ghost predicate PrivatePages(w: World, root: nat, address: nat, n: nat) {
    forall k: nat {:trigger PageAt(root, address, k)} :: k < n ==> Private(w, root, address + PAGE * k)
  }

  lemma PrivateOwn(w: World, root: nat, address: nat, n: nat)
    requires PrivatePages(w, root, address, n)
    ensures OwnPages(w, root, address, n)
  {
    forall k: nat | k < n ensures Own(w, root, address + PAGE * k) {
      assert PageAt(root, address, k) == At(root, address + PAGE * k, 4);
      hide Own, At, PageAt;
      assert Private(w, root, address + PAGE * k);
    }
  }

  lemma PrivatePage(w0: World, w: World, root: nat, address: nat, n: nat, k: nat)
    requires PrivatePages(w0, root, address, n) && k < n
    requires (Extends(w0, w) || (w.tabs == w0.tabs && w.foreign == w0.foreign))
    ensures Private(w, root, address + PAGE * k)
  {
    hide Own, Reach, At, Index;
    assert PageAt(root, address, k) == At(root, address + PAGE * k, 4);
    assert Own(w0, root, address + PAGE * k);
    if Extends(w0, w) {
      OwnExtends(w0, w, root, address + PAGE * k);
    } else {
      OwnSame(w0, w, root, address + PAGE * k);
    }
  }

  lemma OwnSame(w0: World, w: World, root: nat, va: nat)
    requires Own(w0, root, va) && w.tabs == w0.tabs && w.foreign == w0.foreign
    ensures Own(w, root, va)
  {
    hide At;
  }

  lemma WholeUncounted(f: Frame, s: Snap)
    requires Whole(f, s)
    ensures forall p :: p in s.w.free ==> Count(s.counts, p) == 0
  {
    assert Pooled(s.w.free, s.counts, f.pool);
    hide Whole, Pooled, Count;
    forall p | p in s.w.free ensures Count(s.counts, p) == 0 { PooledAt(s.w.free, s.counts, f.pool, p); }
  }

  /** The references lost are those from the places of the range, as they were. */
  ghost predicate LostBy(m0: Memory, w0: World, l0: multiset<nat>, l: multiset<nat>, root: nat, address: nat, n: nat) {
    forall p: nat {:trigger l[p]} :: l[p] == l0[p] + Times(m0, w0, root, address, n, p)
  }

  lemma LostStart(m: Memory, w: World, l: multiset<nat>, root: nat, address: nat)
    ensures LostBy(m, w, l, l, root, address, 0)
  {
    assert forall p :: Times(m, w, root, address, 0, p) == 0;
  }

  lemma LostStep(m0: Memory, w0: World, l0: multiset<nat>, m1: Memory, w1: World, l1: multiset<nat>, l: multiset<nat>,
                 root: nat, address: nat, k: nat)
    requires LostBy(m0, w0, l0, l1, root, address, k) && OthersKept(m0, w0, m1, w1, root, address, k)
    requires l == l1 + PlaceRefers(Mapped(m1, w1, At(root, address + PAGE * k, 4))) && address % PAGE == 0
    requires k < 0x10_0000_0000
    ensures LostBy(m0, w0, l0, l, root, address, k + 1)
  {
    hide Mapped, PageOf;
    var q := PageAt(root, address, k);
    assert q == At(root, address + PAGE * k, 4);
    hide At, PageAt;
    PageAtEntry(root, address, k);
    forall j: nat | j < k ensures PageAt(root, address, j) != q { PagesDiffer(root, address, j, k); }
    assert !Covers(root, address, k, q);
    assert Mapped(m1, w1, q) == Mapped(m0, w0, q);
    forall p: nat ensures l[p] == l0[p] + Times(m0, w0, root, address, k + 1, p) {
      assert l1[p] == l0[p] + Times(m0, w0, root, address, k, p);
    }
  }

  /** One more page of a range has the entry of its source. */
  lemma CopyStep(m0: Memory, w0: World, c0: map<nat, nat>, m1: Memory, w1: World, c1: map<nat, nat>,
                 m: Memory, w: World, c: map<nat, nat>,
                 root: nat, address: nat, sroot: nat, saddress: nat, k: nat, e: nat)
    requires Mirrors(m0, w0, m1, w1, root, address, sroot, saddress, k) && OthersKept(m0, w0, m1, w1, root, address, k)
    requires RaisedBy(m0, w0, w1, c0, c1, sroot, saddress, k) && Extends(w0, w1) && Extends(w1, w)
    requires MappedBut(m1, w1, m, w, PageAt(root, address, k), e) && RaisedOnce(w1, w, c1, c, PageOf(e))
    requires Mapped(m0, w0, PageAt(sroot, saddress, k)) == Some(e) && address % PAGE == 0 && k < 0x10_0000_0000
    ensures Mirrors(m0, w0, m, w, root, address, sroot, saddress, k + 1)
    ensures OthersKept(m0, w0, m, w, root, address, k + 1)
    ensures RaisedBy(m0, w0, w, c0, c, sroot, saddress, k + 1) && Extends(w0, w)
  {
    hide *;
    MappedPresent(m0, w0, PageAt(sroot, saddress, k));
    MirrorsStep(m0, w0, m1, w1, m, w, root, address, sroot, saddress, k, e);
    RaisedStep(m0, w0, w1, w, c0, c1, c, sroot, saddress, k, e);
    OthersStep(m0, w0, m1, w1, m, w, root, address, k, e);
    ExtendsTwice(w0, w1, w);
  }

  /** The next place of a range that was all unmapped is unmapped still. */
  lemma TargetOpen(m0: Memory, w0: World, m: Memory, w: World, root: nat, address: nat, n: nat, k: nat)
    requires AllUnmapped(m0, w0, root, address, n) && k < n && OthersKept(m0, w0, m, w, root, address, k)
    requires address % PAGE == 0 && k < 0x10_0000_0000
    ensures PlaceRefers(Mapped(m, w, At(root, address + PAGE * k, 4))) == multiset{}
  {
    var q := PageAt(root, address, k);
    assert q == At(root, address + PAGE * k, 4);
    hide Mapped, At, PageAt;
    PageAtEntry(root, address, k);
    forall j: nat | j < k ensures PageAt(root, address, j) != q { PagesDiffer(root, address, j, k); }
    assert !Covers(root, address, k, q);
    assert Mapped(m, w, q) == Mapped(m0, w0, q);
  }
}
