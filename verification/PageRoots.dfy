/**
 * Whole roots that come and go: the tables of the world without those of a root that was taken down, and with those
 * of a new root.
 */
module PageRoots {
  import opened Basics
  import opened Words
  import opened PageTables
  import opened PageWorld
  import opened PageRange
  import opened PageVisits
  import opened PageOwed
  import opened PageLedger
  import opened PageBooks

  // ----- a root taken down

  /** The world without the tables of a root. */
  ghost function Cut(w: World, root: nat, free: seq<nat>): World {
    World((map p | p in w.tabs && p.root != root :: w.tabs[p]), (set q | q in w.foreign && q.root != root), free)
  }

  /** The other roots are owed as before, their tables have their words, and none of what they lead to is unused. */
  ghost predicate Standing(m: Memory, m': Memory, free': seq<nat>, left: multiset<nat>) {
    forall p {:trigger left[p]} :: p in left ==> WordsSame(m, m', p) && p !in free'
  }

  lemma CutTabs(w: World, root: nat, free: seq<nat>)
    requires TabsOk(w) && ForeignOk(w)
    ensures TabsOk(Cut(w, root, free)) && ForeignOk(Cut(w, root, free))
  {
    var w' := Cut(w, root, free);
    forall p | p in w'.tabs && |p.path| > 0 ensures Up(p) in w'.tabs && Last(p) < 512 { assert Up(p) in w.tabs; }
  }

  lemma CutPlanted(w: World, roots: map<nat, nat>, id: nat, free: seq<nat>)
    requires Planted(w, roots) && id in roots
    ensures Planted(Cut(w, roots[id], free), roots - {id})
  {
    var w', roots' := Cut(w, roots[id], free), roots - {id};
    forall p | p in w'.tabs ensures p.root in roots'.Values {
      var x :| x in roots && roots[x] == p.root;
      assert x != id && roots'[x] == p.root;
    }
  }

  /** A root that stays is owed among those left. */
  lemma LeftRoot(m: Memory, w: World, roots: map<nat, nat>, ids: seq<nat>, id: nat, p: Pos)
    requires Planted(w, roots) && Named(roots, ids) && id in roots && p in w.tabs && p.root != roots[id]
    ensures RootVisits(m, p.root) <= Total(m, roots - {id}, Without(ids, id))
  {
    var x :| x in roots && roots[x] == p.root;
    WithoutDistinct(ids, id);
    hide Total, RootVisits, Planted;
    assert Named(roots - {id}, Without(ids, id));
    RootOwed(m, roots - {id}, Without(ids, id), x);
  }

  lemma TabLeft(m: Memory, last: nat, w: World, roots: map<nat, nat>, ids: seq<nat>, id: nat, p: Pos)
    requires Structured(m, last, w, roots) && Named(roots, ids) && id in roots && p in w.tabs && p.root != roots[id]
    ensures w.tabs[p] in Total(m, roots - {id}, Without(ids, id)) && w.tabs[p] % PAGE == 0
  {
    hide Total, RootVisits, Visits, Sealed;
    assert |p.path| <= 3 && (|p.path| > 0 ==> p.path[0] != 384) && w.tabs[p] % PAGE == 0;
    TableMet(m, last, w, p);
    LeftRoot(m, w, roots, ids, id, p);
    assert w.tabs[p] in Visits(m, w.tabs[p], |p.path|, 0) + multiset{w.tabs[p]};
    hide *;
  }

  /** A shared table of a root that stays, and all below it, is owed among those left. */
  lemma SharedLeft(m: Memory, last: nat, w: World, roots: map<nat, nat>, ids: seq<nat>, id: nat, q: Pos)
    requires Structured(m, last, w, roots) && Named(roots, ids) && id in roots && q in w.foreign && !Window(q)
    requires q.root != roots[id]
    ensures |q.path| > 0 && Up(q) in w.tabs
    ensures Visits(m, Target(m, w, q), |q.path|, 0)
      + multiset{Target(m, w, q)} <= Total(m, roots - {id}, Without(ids, id))
  {
    hide Total, RootVisits, Visits, Sealed;
    assert |q.path| > 0 && Up(q) in w.tabs;
    SharedFirst(m, last, w, roots, q);
    SharedMet(m, last, w, q);
    LeftRoot(m, w, roots, ids, id, Up(q));
    hide *;
  }

  lemma CutEntry(m: Memory, last: nat, w: World, roots: map<nat, nat>, ids: seq<nat>, id: nat, m': Memory,
                 free': seq<nat>, p: Pos, i: nat)
    requires Structured(m, last, w, roots) && Named(roots, ids) && id in roots
    requires WindowsApart(m, w, Total(m, roots, ids))
    requires Standing(m, m', free', Total(m, roots - {id}, Without(ids, id)))
    requires forall f :: f in free' ==> f in w.free || f in RootVisits(m, roots[id])
    requires p in w.tabs && p.root != roots[id] && |p.path| < 3 && i < 512
    ensures EntryOk(m', Cut(w, roots[id], free'), p, i)
  {
    hide Total, RootVisits, Visits, Sealed, WordsSame, Planted, Named, WorldOk, Load, Floor, WindowsApart, Word;
    TabLeft(m, last, w, roots, ids, id, p);
    assert WordsSame(m, m', w.tabs[p]);
    SameEntry(m, m', w.tabs[p], i);
    EntryKept(m, last, w, p, i);
    if Down(p, i) in w.foreign { TargetUsed(m, last, w, roots, ids, id, m', free', p, i); }
    hide *;
    EntryCut(m, w, roots[id], m', free', p, i);
  }

  lemma EntryCut(m: Memory, w: World, root: nat, m': Memory, free': seq<nat>, p: Pos, i: nat)
    requires p in w.tabs && p.root != root && EntryOk(m, w, p, i)
    requires Load(m', w.tabs[p] + 8 * i) == Load(m, w.tabs[p] + 8 * i)
    requires Down(p, i) in w.foreign ==> Floor(Word(m, w, p, i)) !in free'
    ensures EntryOk(m', Cut(w, root, free'), p, i)
  {
    hide Floor, Present, Load;
    var w' := Cut(w, root, free');
    assert Down(p, i).root == p.root;
    forall v | v in w'.tabs.Values ensures v in w.tabs.Values {
      var q :| q in w'.tabs && w'.tabs[q] == v;
      assert w.tabs[q] == v;
    }
  }

  lemma EntryKept(m: Memory, last: nat, w: World, p: Pos, i: nat)
    requires WorldOk(m, last, w) && p in w.tabs && |p.path| < 3 && i < 512
    ensures EntryOk(m, w, p, i)
  {}

  /** What a shared place of a root that stays leads to is not on the list. */
  lemma TargetUsed(m: Memory, last: nat, w: World, roots: map<nat, nat>, ids: seq<nat>, id: nat, m': Memory,
                   free': seq<nat>, p: Pos, i: nat)
    requires Structured(m, last, w, roots) && Named(roots, ids) && id in roots
    requires WindowsApart(m, w, Total(m, roots, ids))
    requires Standing(m, m', free', Total(m, roots - {id}, Without(ids, id)))
    requires forall f :: f in free' ==> f in w.free || f in RootVisits(m, roots[id])
    requires p in w.tabs && p.root != roots[id] && |p.path| < 3 && i < 512 && Down(p, i) in w.foreign
    ensures Floor(Word(m, w, p, i)) !in free'
  {
    hide Total, RootVisits, Visits, Sealed, WordsSame, Planted;
    DownUp(p, i);
    var q := Down(p, i);
    assert Target(m, w, q) == Floor(Word(m, w, p, i));
    if Window(q) {
      EntryKept(m, last, w, p, i);
      RootOwed(m, roots, ids, id);
      assert Target(m, w, q) !in Total(m, roots, ids);
    } else {
      SharedLeft(m, last, w, roots, ids, id, q);
      assert Target(m, w, q) in Visits(m, Target(m, w, q), |q.path|, 0) + multiset{Target(m, w, q)};
    }
    hide *;
  }

  lemma CutFree(m: Memory, last: nat, w: World, roots: map<nat, nat>, ids: seq<nat>, id: nat, m': Memory, last': nat,
                free': seq<nat>)
    requires Structured(m, last, w, roots) && Named(roots, ids) && id in roots && Listed(m', last', free')
    requires Standing(m, m', free', Total(m, roots - {id}, Without(ids, id)))
    ensures FreeOk(m', last', Cut(w, roots[id], free'))
  {
    hide Structured, Total, WordsSame, Named, Listed;
    var w' := Cut(w, roots[id], free');
    forall f | f in free' ensures f !in w'.tabs.Values {
      if f in w'.tabs.Values {
        var p :| p in w'.tabs && w'.tabs[p] == f;
        TabLeft(m, last, w, roots, ids, id, p);
      }
    }
  }

  /** The pages met keep their words, and are among the one set of pages only if among the other. */
  ghost predicate Unmoved(m: Memory, m': Memory, s: multiset<nat>, pages: set<nat>, pages': set<nat>) {
    forall x {:trigger s[x]} :: x in s ==> WordsSame(m, m', x) && (x in pages' ==> x in pages)
  }

  lemma UnmovedPart(m: Memory, m': Memory, s: multiset<nat>, part: multiset<nat>, pages: set<nat>, pages': set<nat>)
    requires Unmoved(m, m', s, pages, pages') && part <= s
    ensures Unmoved(m, m', part, pages, pages')
  {
    hide WordsSame;
    forall x | x in part ensures WordsSame(m, m', x) && (x in pages' ==> x in pages) { assert x in s; }
  }

  /** Tables that keep their words go on avoiding what they avoided. */
  lemma {:induction false} AvoidsCut(m: Memory, m': Memory, table: nat, level: nat, i: nat, pages: set<nat>,
                                     pages': set<nat>)
    requires Avoids(m, table, level, i, pages) && WordsSame(m, m', table)
    requires Unmoved(m, m', Visits(m, table, level, i), pages, pages')
    ensures Avoids(m', table, level, i, pages')
    decreases 4 - level, 512 - i
  {
    if level <= 3 && i < 512 {
      SameEntry(m, m', table, i);
      hide *;
      VisitsNext(m, table, level, i);
      AvoidsNext(m, table, level, i, pages);
      AvoidsNext(m', table, level, i, pages');
      UnmovedPart(m, m', Visits(m, table, level, i), Visits(m, table, level, i + 1), pages, pages');
      UnmovedPart(m, m', Visits(m, table, level, i), EntryVisits(m, table, level, i), pages, pages');
      AvoidsCut(m, m', table, level, i + 1, pages, pages');
      EntryAvoidsCut(m, m', table, level, i, pages, pages');
    }
  }

  lemma {:induction false} EntryAvoidsCut(m: Memory, m': Memory, table: nat, level: nat, i: nat, pages: set<nat>,
                                          pages': set<nat>)
    requires level <= 3 && i < 512 && EntryAvoids(m, table, level, i, pages)
    requires Load(m', table + 8 * i) == Load(m, table + 8 * i)
    requires Unmoved(m, m', EntryVisits(m, table, level, i), pages, pages')
    ensures EntryAvoids(m', table, level, i, pages')
    decreases 4 - level, 512 - i, 0
  {
    hide Visits, EntryVisits, Avoids, EntryAvoids, Load, PageOf, Present, Skipped, WordsSame;
    EntryGone(m, table, level, i);
    AvoidsEntry(m, table, level, i, pages);
    AvoidsEntry(m', table, level, i, pages');
    var e := Load(m, table + 8 * i);
    if !Skipped(level, i) && Present(e) && level < 3 {
      assert PageOf(e) in EntryVisits(m, table, level, i);
      UnmovedPart(m, m', EntryVisits(m, table, level, i), Visits(m, PageOf(e), level + 1, 0), pages, pages');
      AvoidsCut(m, m', PageOf(e), level + 1, 0, pages, pages');
    }
  }

  lemma CutShared(m: Memory, last: nat, w: World, roots: map<nat, nat>, ids: seq<nat>, id: nat, m': Memory,
                  free': seq<nat>, q: Pos)
    requires Structured(m, last, w, roots) && Named(roots, ids) && id in roots
    requires Standing(m, m', free', Total(m, roots - {id}, Without(ids, id)))
    requires q in w.foreign && q.root != roots[id] && |q.path| > 0 && Up(q) in w.tabs
    ensures Up(q) in Cut(w, roots[id], free').tabs && Target(m', Cut(w, roots[id], free'), q) == Target(m, w, q)
    ensures !Window(q) ==> Avoids(m', Target(m, w, q), |q.path|, 0, Reach(Cut(w, roots[id], free')))
  {
    hide Total, RootVisits, Visits, Avoids, WordsSame, Planted, Named, WorldOk, Reach;
    var w' := Cut(w, roots[id], free');
    var t := Target(m, w, q);
    TabLeft(m, last, w, roots, ids, id, Up(q));
    SameEntry(m, m', w.tabs[Up(q)], LastIndex(m, last, w, q));
    if !Window(q) {
      SharedLeft(m, last, w, roots, ids, id, q);
      CutReach(w, roots[id], free');
      var left := Total(m, roots - {id}, Without(ids, id));
      assert t in Visits(m, t, |q.path|, 0) + multiset{t};
      assert t in left;
      forall x | x in Visits(m, t, |q.path|, 0) ensures WordsSame(m, m', x) && (x in Reach(w') ==> x in Reach(w)) {
        assert x in Visits(m, t, |q.path|, 0) + multiset{t};
        assert x in left;
      }
      AvoidsCut(m, m', t, |q.path|, 0, Reach(w), Reach(w'));
    }
  }

  ghost function LastIndex(m: Memory, last: nat, w: World, q: Pos): (i: nat)
    requires WorldOk(m, last, w) && q in w.foreign && |q.path| > 0
    ensures i < 512 && i == Last(q)
  {
    Last(q)
  }

  lemma CutReach(w: World, root: nat, free': seq<nat>)
    ensures forall x :: x in Reach(Cut(w, root, free')) && x !in free' ==> x in Reach(w)
  {
    forall x | x in Reach(Cut(w, root, free')) && x !in free' ensures x in Reach(w) {
      var p :| p in Cut(w, root, free').tabs && Cut(w, root, free').tabs[p] == x;
      assert w.tabs[p] == x;
    }
  }

  /** The world without a root that was taken down is in order. */
  lemma CutStructured(m: Memory, last: nat, w: World, roots: map<nat, nat>, ids: seq<nat>, id: nat, m': Memory,
                      last': nat, free': seq<nat>)
    requires Structured(m, last, w, roots) && Named(roots, ids) && id in roots
    requires WindowsApart(m, w, Total(m, roots, ids))
    requires Listed(m', last', free') && Standing(m, m', free', Total(m, roots - {id}, Without(ids, id)))
    requires forall f :: f in free' ==> f in w.free || f in RootVisits(m, roots[id])
    ensures Structured(m', last', Cut(w, roots[id], free'), roots - {id})
    ensures WindowsApart(m', Cut(w, roots[id], free'), Total(m, roots - {id}, Without(ids, id)))
  {
    var w' := Cut(w, roots[id], free');
    CutSealed(m, last, w, roots, ids, id, m', free');
    CutOk(m, last, w, roots, ids, id, m', last', free');
    hide Total, RootVisits, WorldOk, Sealed, Named, Standing, Listed;
    CutPlanted(w, roots, id, free');
    hide *;
  }

  lemma CutOk(m: Memory, last: nat, w: World, roots: map<nat, nat>, ids: seq<nat>, id: nat, m': Memory, last': nat,
              free': seq<nat>)
    requires Structured(m, last, w, roots) && Named(roots, ids) && id in roots
    requires WindowsApart(m, w, Total(m, roots, ids))
    requires Listed(m', last', free') && Standing(m, m', free', Total(m, roots - {id}, Without(ids, id)))
    requires forall f :: f in free' ==> f in w.free || f in RootVisits(m, roots[id])
    ensures WorldOk(m', last', Cut(w, roots[id], free'))
  {
    hide Total, RootVisits, Sealed, Named, Standing, Listed, WindowsApart, Planted, EntriesOk, FreeOk;
    var w' := Cut(w, roots[id], free');
    CutTabs(w, roots[id], free');
    hide WorldOk, TabsOk, ForeignOk;
    forall p, i | p in w'.tabs && |p.path| < 3 && 0 <= i < 512 ensures EntryOk(m', w', p, i) {
      CutEntry(m, last, w, roots, ids, id, m', free', p, i);
    }
    CutFree(m, last, w, roots, ids, id, m', last', free');
    hide *;
    AssembleWorld(m', last', w');
  }

  lemma CutSealed(m: Memory, last: nat, w: World, roots: map<nat, nat>, ids: seq<nat>, id: nat, m': Memory,
                  free': seq<nat>)
    requires Structured(m, last, w, roots) && Named(roots, ids) && id in roots
    requires WindowsApart(m, w, Total(m, roots, ids))
    requires Standing(m, m', free', Total(m, roots - {id}, Without(ids, id)))
    ensures Sealed(m', Cut(w, roots[id], free'))
    ensures WindowsApart(m', Cut(w, roots[id], free'), Total(m, roots - {id}, Without(ids, id)))
  {
    hide Total, RootVisits, Named, Standing, Avoids, Target, Planted;
    var w', left := Cut(w, roots[id], free'), Total(m, roots - {id}, Without(ids, id));
    LeftAmong(m, roots, ids, id);
    forall q | q in w'.foreign && !Window(q)
      ensures |q.path| > 0 && Up(q) in w'.tabs && Avoids(m', Target(m', w', q), |q.path|, 0, Reach(w'))
    {
      assert |q.path| > 0 && Up(q) in w.tabs;
      CutShared(m, last, w, roots, ids, id, m', free', q);
    }
    forall q | q in w'.foreign && Window(q) && Up(q) in w'.tabs ensures Target(m', w', q) !in left {
      assert |q.path| > 0 && Up(q) in w.tabs;
      CutShared(m, last, w, roots, ids, id, m', free', q);
    }
    hide *;
  }

  lemma LeftAmong(m: Memory, roots: map<nat, nat>, ids: seq<nat>, id: nat)
    requires Named(roots, ids) && id in roots
    ensures Total(m, roots - {id}, Without(ids, id)) <= Total(m, roots, ids)
  {
    hide Total, RootVisits;
    TotalLess(m, roots, ids, id);
  }

  // ----- a root being made

  /** The unused pages, as a set. */
  ghost function Unused(w: World): set<nat> {
    set f | f in w.free
  }

  /** A new shared place leads where a shared place of the same kind led before. */
  ghost predicate CopiedPlace(m0: Memory, w0: World, m: Memory, w: World, q: Pos) {
    && |q.path| > 0 && Up(q) in w.tabs
    && exists q' {:trigger q' in w0.foreign} ::
      q' in w0.foreign && |q'.path| == |q.path| && Window(q') == Window(q) && Up(q') in w0.tabs
        && Target(m0, w0, q') == Target(m, w, q)
  }

  /** A table of the new root: one of the pages that were unused. */
  ghost predicate NewTab(w0: World, w: World, ret: nat, p: Pos) {
    p in w.tabs && p.root == ret && w.tabs[p] in w0.free && |p.path| < 3 && (|p.path| > 0 ==> p.path[0] != 384)
  }

  /** Since m0 and w0 only the new root and tables of it were made, from unused pages, and places shared with it. */
  ghost predicate Sprouted(m0: Memory, w0: World, m: Memory, w: World, ret: nat) {
    && TabsGrown(w0, w, ret) && OnlyIn(m0, m, Unused(w0))
    && (forall q {:trigger q in w.foreign} ::
        q in w.foreign && q !in w0.foreign ==> q.root == ret && CopiedPlace(m0, w0, m, w, q))
  }

  ghost predicate TabsGrown(w0: World, w: World, ret: nat) {
    && Pos(ret, []) in w.tabs && Pos(ret, []) !in w0.tabs && w.tabs[Pos(ret, [])] == ret
    && (forall p :: p in w0.tabs ==> p in w.tabs && w.tabs[p] == w0.tabs[p])
    && (forall p {:trigger NewTab(w0, w, ret, p)} :: p in w.tabs && p !in w0.tabs ==> NewTab(w0, w, ret, p))
    && (forall q :: q in w0.foreign ==> q in w.foreign)
    && RootReach(w, ret) == Unused(w0) && (forall f :: f in w.free ==> f in w0.free)
  }

  /** A cleared page as a root without entries. */
  lemma RootPlanted(m: Memory, last: nat, w: World, t: nat)
    requires WorldOk(m, last, w) && Loose(m, w, t) && forall j :: 0 <= j < 512 ==> Load(m, t + 8 * j) == 0
    ensures WorldOk(m, last, AddTable(w, Pos(t, []), t)) && Pos(t, []) !in w.tabs
  {
    var w' := AddTable(w, Pos(t, []), t);
    NoRootAt(w, t);
    RootTabs(w, t);
    forall p, i | p in w'.tabs && |p.path| < 3 && 0 <= i < 512 ensures EntryOk(m, w', p, i) {
      RootEntry(m, last, w, t, p, i);
    }
    assert FreeOk(m, last, w') by { hide EntriesOk, TabsOk, Chained; }
    hide *;
    AssembleWorld(m, last, w');
  }

  lemma NoRootAt(w: World, t: nat)
    requires TabsOk(w) && t !in w.tabs.Values
    ensures Pos(t, []) !in w.tabs
  {
    forall p | p in w.tabs ensures w.tabs[p] != t {}
  }

  lemma RootTabs(w: World, t: nat)
    requires TabsOk(w) && ForeignOk(w) && IsPage(t) && t !in w.tabs.Values
    ensures var w' := AddTable(w, Pos(t, []), t); TabsOk(w') && ForeignOk(w') && w'.tabs.Values == w.tabs.Values + {t}
  {
    var q := Pos(t, []);
    var w' := AddTable(w, q, t);
    NoRootAt(w, t);
    assert w'.tabs[q] == t;
    forall v | v in w.tabs.Values ensures v in w'.tabs.Values {
      var x :| x in w.tabs && w.tabs[x] == v;
      assert w'.tabs[x] == v;
    }
    forall x | x in w'.tabs && |x.path| > 0 ensures Up(x) in w'.tabs && Last(x) < 512 { assert Up(x) in w.tabs; }
    forall x, y | x in w'.tabs && y in w'.tabs && w'.tabs[x] == w'.tabs[y] ensures x == y {
      if x != q { TableValue(w, x); }
      if y != q { TableValue(w, y); }
    }
  }

  lemma RootEntry(m: Memory, last: nat, w: World, t: nat, p: Pos, i: nat)
    requires WorldOk(m, last, w) && Loose(m, w, t) && forall j :: 0 <= j < 512 ==> Load(m, t + 8 * j) == 0
    requires p in AddTable(w, Pos(t, []), t).tabs && |p.path| < 3 && i < 512
    requires AddTable(w, Pos(t, []), t).tabs.Values == w.tabs.Values + {t}
    ensures EntryOk(m, AddTable(w, Pos(t, []), t), p, i)
  {
    var q := Pos(t, []);
    DownUp(p, i);
    NoRootAt(w, t);
    if p == q {
      NoneBelow(w, q, i);
      assert Load(m, t + 8 * i) == 0;
    } else {
      assert EntryOk(m, w, p, i);
    }
  }

  /** The state just after the page of the root was cleared. */
  lemma SproutStart(m0: Memory, last0: nat, w0: World, m: Memory, w: World, ret: nat)
    requires WorldOk(m0, last0, w0) && |w0.free| > 0 && ret == w0.free[0] && OnlyIn(m0, m, {ret})
    requires w == AddTable(Popped(w0), Pos(ret, []), ret) && Pos(ret, []) !in w0.tabs
    ensures Sprouted(m0, w0, m, w, ret)
  {
    hide WorldOk;
    assert w0.free == [ret] + w.free;
    assert ret in w0.free;
    OnlyInWider(m0, m, {ret}, Unused(w0));
    assert w.tabs[Pos(ret, [])] == ret;
    RootsOnly(m0, last0, w0, ret);
    forall p | p in w.tabs && p !in w0.tabs ensures NewTab(w0, w, ret, p) {}
    assert RootReach(w, ret) == Unused(w0) by {
      forall v | v in RootReach(w, ret) ensures v in Unused(w0) {
        if v !in w.free {
          var p :| p in w.tabs && p.root == ret && w.tabs[p] == v;
          assert p in w0.tabs ==> false;
        }
      }
      forall v | v in Unused(w0) ensures v in RootReach(w, ret) {}
    }
  }

  /** No table hangs from a page that is not a root. */
  lemma RootsOnly(m: Memory, last: nat, w: World, ret: nat)
    requires WorldOk(m, last, w) && Pos(ret, []) !in w.tabs
    ensures forall p :: p in w.tabs ==> p.root != ret
  {
    forall p | p in w.tabs ensures p.root != ret {
      if p.root == ret { PrefixIn(w, Pos(ret, []), p); }
    }
  }

  /** Tables built on the way to an address of the new root. */
  lemma SproutGrown(m0: Memory, w0: World, m1: Memory, w1: World, m: Memory, w: World, ret: nat, va: nat, level: nat)
    requires Sprouted(m0, w0, m1, w1, ret) && Grown(w1, w, ret, va) && Shallow(w1, w, level) && level < 3
    requires TargetsKept(m1, w1, m, w)
    requires OnlyIn(m1, m, RootReach(w1, ret)) && RootReach(w, ret) == RootReach(w1, ret)
    requires (level == 0 || Index(va, 0) != 384)
    ensures Sprouted(m0, w0, m, w, ret)
  {
    hide Reach, RootReach, Target, OnlyIn;
    OnlyInMore(m0, m1, m, Unused(w0), RootReach(w1, ret));
    GrownFree(w1, w, ret, va);
    forall p | p in w.tabs && p !in w0.tabs ensures NewTab(w0, w, ret, p) {
      if p in w1.tabs { assert NewTab(w0, w1, ret, p); } else { GrownTab(w0, w1, w, ret, va, level, p); }
    }
    forall q | q in w.foreign && q !in w0.foreign ensures q.root == ret && CopiedPlace(m0, w0, m, w, q) {
      assert CopiedPlace(m0, w0, m1, w1, q);
    }
  }

  lemma GrownTab(w0: World, w1: World, w: World, ret: nat, va: nat, level: nat, p: Pos)
    requires Grown(w1, w, ret, va) && Shallow(w1, w, level) && level < 3 && p in w.tabs && p !in w1.tabs
    requires RootReach(w, ret) == Unused(w0) && (level == 0 || Index(va, 0) != 384)
    ensures NewTab(w0, w, ret, p)
  {
    var n :| 0 < n <= 3 && p == At(ret, va, n);
    assert n <= level;
    hide Reach, Index;
    FirstDigit(ret, va, n);
    assert w.tabs[p] in RootReach(w, ret);
    assert w.tabs[p] in Unused(w0);
  }

  /** The entry of the new root that has been given the word of an entry elsewhere. */
  lemma SharedOk(m: Memory, last: nat, w: World, p: Pos, i: nat, u: Pos, j: nat)
    requires WorldOk(m, last, w) && p in w.tabs && |p.path| < 3 && i < 512 && Down(p, i) !in w.tabs
    requires Down(p, i) !in w.foreign
    requires u in w.tabs && |u.path| < 3 && j < 512 && Down(u, j) !in w.tabs
    ensures var e := Load(m, w.tabs[u] + 8 * j);
      var w' := if Present(e) then w.(foreign := w.foreign + {Down(p, i)}) else w;
      WorldOk(m[w.tabs[p] + 8 * i := e], last, w')
  {
    hide *;
    var e := Load(m, w.tabs[u] + 8 * j);
    var w' := if Present(e) then w.(foreign := w.foreign + {Down(p, i)}) else w;
    var m' := m[w.tabs[p] + 8 * i := e];
    WorldParts(m, last, w);
    EntryWriteFree(m, last, w, p, i, e);
    SharedTabs(w, w', p, i);
    SharedFree(m', last, w, w');
    SourceEntry(m, last, w, u, j);
    forall x, k | x in w'.tabs && |x.path| < 3 && 0 <= k < 512 ensures EntryOk(m', w', x, k) {
      SharedEntryOk(m, last, w, p, i, e, m', w', x, k);
    }
    AssembleWorld(m', last, w');
  }

  /** What an entry that leads to no table of the world leads to. */
  lemma SourceEntry(m: Memory, last: nat, w: World, u: Pos, j: nat)
    requires WorldOk(m, last, w) && u in w.tabs && |u.path| < 3 && j < 512 && Down(u, j) !in w.tabs
    ensures var e := Load(m, w.tabs[u] + 8 * j);
      Present(e) ==> Floor(e) !in w.tabs.Values && Floor(e) !in w.free && e < NX
  {
    assert EntryOk(m, w, u, j);
    hide WorldOk, Floor, Present;
  }

  lemma SharedTabs(w: World, w': World, p: Pos, i: nat)
    requires TabsOk(w) && ForeignOk(w) && p in w.tabs && |p.path| < 3 && i < 512 && Down(p, i) !in w.tabs
    requires w'.tabs == w.tabs && (w'.foreign == w.foreign || w'.foreign == w.foreign + {Down(p, i)})
    ensures TabsOk(w') && ForeignOk(w')
  {
    DownUp(p, i);
    forall x | x in w'.tabs && |x.path| > 0 ensures Up(x) in w'.tabs && Last(x) < 512 {}
  }

  lemma SharedFree(m: Memory, last: nat, w: World, w': World)
    requires FreeOk(m, last, w) && w'.tabs == w.tabs && w'.free == w.free
    ensures FreeOk(m, last, w')
  {}

  lemma SharedEntryOk(m: Memory, last: nat, w: World, p: Pos, i: nat, e: nat, m': Memory, w': World, x: Pos, k: nat)
    requires WorldOk(m, last, w) && p in w.tabs && |p.path| < 3 && i < 512 && Down(p, i) !in w.tabs
    requires Down(p, i) !in w.foreign
    requires Present(e) ==> Floor(e) !in w.tabs.Values && Floor(e) !in w.free && e < NX
    requires w' == (if Present(e) then w.(foreign := w.foreign + {Down(p, i)}) else w)
    requires m' == m[w.tabs[p] + 8 * i := e]
    requires x in w.tabs && |x.path| < 3 && k < 512
    ensures EntryOk(m', w', x, k)
  {
    hide *;
    EntryKept(m, last, w, x, k);
    if x != p || k != i {
      SlotsApart(m, last, w, p, i, x, k);
      EntryOther(m, w, p, i, e, x, k, w');
    } else {
      EntryNew(m, w, p, i, e, w');
    }
  }

  lemma EntryOther(m: Memory, w: World, p: Pos, i: nat, e: nat, x: Pos, k: nat, w': World)
    requires x in w.tabs && p in w.tabs && EntryOk(m, w, x, k) && w.tabs[x] + 8 * k != w.tabs[p] + 8 * i
    requires Down(x, k) != Down(p, i)
    requires w' == w || w' == w.(foreign := w.foreign + {Down(p, i)})
    ensures EntryOk(m[w.tabs[p] + 8 * i := e], w', x, k)
  {
    hide Floor, Present;
  }

  lemma EntryNew(m: Memory, w: World, p: Pos, i: nat, e: nat, w': World)
    requires p in w.tabs && Down(p, i) !in w.tabs && Down(p, i) !in w.foreign
    requires Present(e) ==> Floor(e) !in w.tabs.Values && Floor(e) !in w.free && e < NX
    requires w' == if Present(e) then w.(foreign := w.foreign + {Down(p, i)}) else w
    ensures EntryOk(m[w.tabs[p] + 8 * i := e], w', p, i)
  {
    hide Floor, Present;
  }

  lemma SlotsApart(m: Memory, last: nat, w: World, p: Pos, i: nat, x: Pos, k: nat)
    requires WorldOk(m, last, w) && p in w.tabs && x in w.tabs && i < 512 && k < 512 && (x != p || k != i)
    ensures w.tabs[x] + 8 * k != w.tabs[p] + 8 * i && Down(x, k) != Down(p, i)
  {
    DownUp(p, i);
    DownUp(x, k);
    if w.tabs[x] + 8 * k == w.tabs[p] + 8 * i { SlotsDistinct(w, x, k, p, i); }
  }

  /** Copying the word of an entry that the new root does not reach. */
  lemma SproutShared(m0: Memory, last0: nat, w0: World, m1: Memory, last: nat, w1: World, ret: nat, p: Pos, i: nat,
                     u: Pos, j: nat)
    requires Sprouted(m0, w0, m1, w1, ret) && WorldOk(m1, last, w1) && WorldOk(m0, last0, w0)
    requires p in w1.tabs && p.root == ret && |p.path| < 3 && i < 512 && Down(p, i) !in w1.tabs
    requires Down(p, i) !in w1.foreign
    requires u in w0.tabs && |u.path| == |p.path| && j < 512 && Down(u, j) !in w0.tabs
    requires (Window(Down(u, j)) <==> Window(Down(p, i)))
    ensures u in w1.tabs
    ensures var e := Load(m1, w1.tabs[u] + 8 * j);
      var w := if Present(e) then w1.(foreign := w1.foreign + {Down(p, i)}) else w1;
      Sprouted(m0, w0, m1[w1.tabs[p] + 8 * i := e], w, ret) && WorldOk(m1[w1.tabs[p] + 8 * i := e], last, w)
  {
    hide *;
    OldWord(m0, last0, w0, m1, w1, ret, u, j);
    var e := Load(m1, w1.tabs[u] + 8 * j);
    var m := m1[w1.tabs[p] + 8 * i := e];
    var w := if Present(e) then w1.(foreign := w1.foreign + {Down(p, i)}) else w1;
    SharedOk(m1, last, w1, p, i, u, j);
    SproutWritten(m0, w0, m1, last, w1, ret, p, i, e, m);
    SproutCopied(m0, last0, w0, m1, last, w1, ret, p, i, u, j, e, m, w);
  }

  lemma SproutCopied(m0: Memory, last0: nat, w0: World, m1: Memory, last: nat, w1: World, ret: nat, p: Pos, i: nat,
                     u: Pos, j: nat, e: nat, m: Memory, w: World)
    requires Sprouted(m0, w0, m1, w1, ret) && WorldOk(m1, last, w1) && WorldOk(m0, last0, w0)
    requires OnlyIn(m0, m, Unused(w0))
    requires p in w1.tabs && p.root == ret && |p.path| < 3 && i < 512 && Down(p, i) !in w1.tabs
    requires Down(p, i) !in w1.foreign
    requires u in w0.tabs && |u.path| == |p.path| && j < 512 && Down(u, j) !in w0.tabs
    requires (Window(Down(u, j)) <==> Window(Down(p, i)))
    requires e == Load(m0, w0.tabs[u] + 8 * j) && m == m1[w1.tabs[p] + 8 * i := e]
    requires w == if Present(e) then w1.(foreign := w1.foreign + {Down(p, i)}) else w1
    ensures Sprouted(m0, w0, m, w, ret)
  {
    hide WorldOk, OnlyIn, RootReach, Load, NewTab, CopiedPlace, Window, Present, TabsGrown;
    Stored(m1, w1.tabs[p] + 8 * i, e);
    DownUp(p, i);
    assert TabsGrown(w0, w, ret) by { GrownSame(w0, w1, w, ret); }
    forall q | q in w.foreign && q !in w0.foreign ensures q.root == ret && CopiedPlace(m0, w0, m, w, q) {
      if q in w1.foreign {
        CopyStays(m0, w0, m1, last, w1, m, w, p, i, e, q);
      } else {
        CopiedEntry(m0, last0, w0, m, w, p, i, u, j, e);
      }
    }
  }

  lemma Stored(m: Memory, a: nat, e: nat)
    ensures Load(m[a := e], a) == e
  {}

  lemma CopyStays(m0: Memory, w0: World, m1: Memory, last: nat, w1: World, m: Memory, w: World, p: Pos, i: nat, e: nat,
                  q: Pos)
    requires CopiedPlace(m0, w0, m1, w1, q) && WorldOk(m1, last, w1) && p in w1.tabs && i < 512
    requires Down(p, i) !in w1.foreign && q in w1.foreign
    requires m == m1[w1.tabs[p] + 8 * i := e] && w.tabs == w1.tabs
    ensures CopiedPlace(m0, w0, m, w, q)
  {
    TargetStays(m1, last, w1, m, w, p, i, e, q);
    hide WorldOk, Target, Window;
  }

  lemma GrownSame(w0: World, w1: World, w: World, ret: nat)
    requires TabsGrown(w0, w1, ret) && w.tabs == w1.tabs && w.free == w1.free && w1.foreign <= w.foreign
    ensures TabsGrown(w0, w, ret)
  {
    hide RootReach, Unused;
    assert RootReach(w, ret) == RootReach(w1, ret) by { SameReach(w1, w, ret); }
    forall p | p in w.tabs && p !in w0.tabs ensures NewTab(w0, w, ret, p) { assert NewTab(w0, w1, ret, p); }
  }

  lemma SameReach(w1: World, w: World, ret: nat)
    requires w.tabs == w1.tabs && w.free == w1.free
    ensures RootReach(w, ret) == RootReach(w1, ret)
  {}

  lemma SproutWritten(m0: Memory, w0: World, m1: Memory, last: nat, w1: World, ret: nat, p: Pos, i: nat, e: nat,
                      m: Memory)
    requires Sprouted(m0, w0, m1, w1, ret) && WorldOk(m1, last, w1) && p in w1.tabs && p.root == ret && i < 512
    requires m == m1[w1.tabs[p] + 8 * i := e]
    ensures OnlyIn(m0, m, Unused(w0))
  {
    hide WorldOk, OnlyIn, Unused, MapsKept, NewTab;
    assert TabsOk(w1) by { WorldParts(m1, last, w1); }
    TableValue(w1, p);
    assert w1.tabs[p] in RootReach(w1, ret);
    hide TabsOk, RootReach;
    OnlyInWrite(m0, m1, Unused(w0), w1.tabs[p], i, e);
  }

  /** Words of the tables there were are as they were. */
  lemma OldWord(m0: Memory, last0: nat, w0: World, m: Memory, w: World, ret: nat, u: Pos, j: nat)
    requires WorldOk(m0, last0, w0) && Sprouted(m0, w0, m, w, ret) && u in w0.tabs && j < 512
    ensures u in w.tabs && w.tabs[u] == w0.tabs[u] && Load(m, w.tabs[u] + 8 * j) == Load(m0, w0.tabs[u] + 8 * j)
    ensures Down(u, j) !in w0.tabs ==> Down(u, j) !in w.tabs
  {
    hide RootReach, NewTab, Load;
    TableUsed(m0, last0, w0, u, j);
    assert u in w.tabs && w.tabs[u] == w0.tabs[u];
    assert Load(m, w0.tabs[u] + 8 * j) == Load(m0, w0.tabs[u] + 8 * j);
    OldBelow(m0, last0, w0, w, ret, u, j);
    hide *;
  }

  lemma TableUsed(m: Memory, last: nat, w: World, u: Pos, j: nat)
    requires WorldOk(m, last, w) && u in w.tabs && j < 512
    ensures !InPages(w.tabs[u] + 8 * j, Unused(w))
  {
    hide ForeignOk, EntriesOk, Listed, Floor;
    TableValue(w, u);
    SlotInPage(w.tabs[u], j);
  }

  lemma OldBelow(m: Memory, last: nat, w0: World, w: World, ret: nat, u: Pos, j: nat)
    requires WorldOk(m, last, w0) && TabsGrown(w0, w, ret) && u in w0.tabs
    ensures Down(u, j) !in w0.tabs ==> Down(u, j) !in w.tabs
  {
    hide RootReach;
    if Down(u, j) in w.tabs && Down(u, j) !in w0.tabs {
      assert NewTab(w0, w, ret, Down(u, j));
      hide NewTab, WorldOk;
      RootsOnly(m, last, w0, ret);
    }
  }

  /** Another shared place leads where it led. */
  lemma TargetStays(m1: Memory, last: nat, w1: World, m: Memory, w: World, p: Pos, i: nat, e: nat, q: Pos)
    requires WorldOk(m1, last, w1) && p in w1.tabs && i < 512 && Down(p, i) !in w1.foreign && q in w1.foreign
    requires |q.path| > 0 && Up(q) in w1.tabs
    requires m == m1[w1.tabs[p] + 8 * i := e] && w.tabs == w1.tabs
    ensures Target(m, w, q) == Target(m1, w1, q)
  {
    UpDown(q);
    if w1.tabs[Up(q)] + 8 * Last(q) == w1.tabs[p] + 8 * i { SlotsDistinct(w1, Up(q), Last(q), p, i); }
  }

  lemma CopiedEntry(m0: Memory, last0: nat, w0: World, m: Memory, w: World, p: Pos, i: nat, u: Pos, j: nat, e: nat)
    requires WorldOk(m0, last0, w0) && u in w0.tabs && j < 512 && Down(u, j) !in w0.tabs && |u.path| == |p.path| < 3
    requires p in w.tabs && Load(m, w.tabs[p] + 8 * i) == e && e == Load(m0, w0.tabs[u] + 8 * j) && Present(e)
    requires Window(Down(u, j)) <==> Window(Down(p, i))
    ensures CopiedPlace(m0, w0, m, w, Down(p, i))
  {
    EntryKept(m0, last0, w0, u, j);
    DownUp(p, i);
    DownUp(u, j);
    assert Down(u, j) in w0.foreign;
    assert Target(m0, w0, Down(u, j)) == Target(m, w, Down(p, i));
  }

  // ----- a root that has been made

  /** What the other roots lead to is as it was. */
  lemma SproutTotal(m0: Memory, w0: World, m: Memory, roots: map<nat, nat>, ids: seq<nat>)
    requires OnlyIn(m0, m, Unused(w0)) && Named(roots, ids) && (forall id :: id in roots ==> IsPage(roots[id]))
    requires forall p :: p in Total(m0, roots, ids) ==> p !in w0.free
    ensures Total(m, roots, ids) == Total(m0, roots, ids)
    ensures forall id :: id in roots ==> RootVisits(m, roots[id]) == RootVisits(m0, roots[id])
  {
    hide Total, RootVisits, OnlyIn;
    forall p | p in Total(m0, roots, ids) ensures WordsSame(m0, m, p) {
      TotalPages(m0, roots, ids, p);
      PageSame(m0, m, Unused(w0), p);
    }
    TotalSame(m0, m, roots, ids);
    forall id | id in roots ensures RootVisits(m, roots[id]) == RootVisits(m0, roots[id]) {
      RootKept(m0, m, roots, ids, id);
    }
    hide *;
  }

  lemma PageSame(m0: Memory, m: Memory, pages: set<nat>, p: nat)
    requires OnlyIn(m0, m, pages) && p % PAGE == 0 && p !in pages
    ensures WordsSame(m0, m, p)
  {
    forall j: nat | j < 512 ensures WordAt(m, p, j) == WordAt(m0, p, j) { SlotInPage(p, j); }
  }

  /** The walk of the new root meets its own tables and what shared places lead to. */
  lemma {:induction false} NewVisits(m: Memory, last: nat, w: World, ret: nat, p: Pos, j: nat, s: multiset<nat>)
    requires WorldOk(m, last, w) && p in w.tabs && p.root == ret && j <= 512 && NewWithin(m, w, ret, s)
    ensures |p.path| < 3 && forall x :: x in Visits(m, w.tabs[p], |p.path|, j) ==> x in s
    decreases 4 - |p.path|, 512 - j
  {
    assert TabWithin(w, p, s);
    if j < 512 {
      hide *;
      VisitsNext(m, w.tabs[p], |p.path|, j);
      NewVisits(m, last, w, ret, p, j + 1, s);
      NewEntry(m, last, w, ret, p, j, s);
    } else {
      VisitsEnd(m, w.tabs[p], |p.path|);
      hide Visits;
    }
  }

  lemma {:induction false} NewEntry(m: Memory, last: nat, w: World, ret: nat, p: Pos, j: nat, s: multiset<nat>)
    requires WorldOk(m, last, w) && p in w.tabs && p.root == ret && |p.path| < 3 && j < 512 && NewWithin(m, w, ret, s)
    ensures forall x :: x in EntryVisits(m, w.tabs[p], |p.path|, j) ==> x in s
    decreases 4 - |p.path|, 512 - j, 0
  {
    hide Visits, EntryVisits, WorldOk, Load, PageOf, Present, Floor, Skipped, Target, Down;
    EntryFound(m, last, w, p, j);
    BelowPos(p, j);
    EntryGone(m, w.tabs[p], |p.path|, j);
    if Down(p, j) in w.tabs {
      assert TabWithin(w, Down(p, j), s);
      hide NewWithin;
      NewVisits(m, last, w, ret, Down(p, j), 0, s);
    } else if Down(p, j) in w.foreign && !Skipped(|p.path|, j) {
      hide NewWithin;
      SharedWithin(m, w, ret, p, j, s);
    }
  }

  lemma BelowPos(p: Pos, j: nat)
    ensures Down(p, j).root == p.root && |Down(p, j).path| == |p.path| + 1
  {
    DownUp(p, j);
  }

  ghost predicate TabWithin(w: World, p: Pos, s: multiset<nat>)
    requires p in w.tabs
  {
    |p.path| < 3 && w.tabs[p] in s
  }

  /** The tables of the new root, and what its shared places lead to, are among the pages. */
  ghost predicate NewWithin(m: Memory, w: World, ret: nat, s: multiset<nat>) {
    && (forall p {:trigger TabWithin(w, p, s)} :: p in w.tabs && p.root == ret ==> TabWithin(w, p, s))
    && (forall q {:trigger q in w.foreign} :: q in w.foreign && q.root == ret && !Window(q) ==>
        |q.path| > 0 && Up(q) in w.tabs && Visits(m, Target(m, w, q), |q.path|, 0) + multiset{Target(m, w, q)} <= s)
  }

  lemma SharedWithin(m: Memory, w: World, ret: nat, p: Pos, j: nat, s: multiset<nat>)
    requires NewWithin(m, w, ret, s) && p in w.tabs && p.root == ret && |p.path| < 3 && j < 512
    requires Down(p, j) in w.foreign && !Skipped(|p.path|, j)
    ensures var t := Floor(Load(m, w.tabs[p] + 8 * j));
      t in s && forall x :: x in Visits(m, t, |p.path| + 1, 0) ==> x in s
  {
    DownUp(p, j);
    var q, t := Down(p, j), Floor(Load(m, w.tabs[p] + 8 * j));
    assert q.path[|p.path|] == j;
    assert t == Target(m, w, q);
    hide Visits, TabWithin;
    assert t in Visits(m, t, |q.path|, 0) + multiset{t};
    forall x | x in Visits(m, t, |q.path|, 0) ensures x in s { assert x in Visits(m, t, |q.path|, 0) + multiset{t}; }
  }

  // ----- the new root among the others

  /** The pages the new root was made of. */
  ghost function NewPages(w0: World, w: World): set<nat> {
    Unused(w0) - Unused(w)
  }

  /** A shared place of the new root, or an old one, and the old place that leads to the same table. */
  ghost predicate Like(m0: Memory, w0: World, m: Memory, w: World, q: Pos, q': Pos) {
    && q' in w0.foreign && |q'.path| == |q.path| > 0 && (Window(q') <==> Window(q)) && Up(q) in w.tabs
    && Up(q') in w0.tabs
    && Target(m0, w0, q') == Target(m, w, q)
  }

  lemma LikeOld(m0: Memory, last0: nat, w0: World, m: Memory, w: World, ret: nat, q: Pos) returns (q': Pos)
    requires WorldOk(m0, last0, w0) && Sprouted(m0, w0, m, w, ret) && q in w.foreign
    ensures Like(m0, w0, m, w, q, q') && (q.root == ret ==> q !in w0.foreign)
  {
    if q in w0.foreign {
      q' := q;
      OldShared(m0, last0, w0, m, w, ret, q);
    } else {
      assert CopiedPlace(m0, w0, m, w, q);
      hide WorldOk, TabsGrown, OnlyIn;
      q' :| q' in w0.foreign && |q'.path| == |q.path| && Window(q') == Window(q) && Up(q') in w0.tabs
        && Target(m0, w0, q') == Target(m, w, q);
    }
  }

  lemma OldShared(m0: Memory, last0: nat, w0: World, m: Memory, w: World, ret: nat, q: Pos)
    requires WorldOk(m0, last0, w0) && Sprouted(m0, w0, m, w, ret) && q in w0.foreign
    ensures Like(m0, w0, m, w, q, q) && q.root != ret
  {
    hide WorldOk, Sprouted, Load, Floor;
    SharedPlace(m0, last0, w0, q);
    OldWord(m0, last0, w0, m, w, ret, Up(q), Last(q));
    NotOld(m0, w0, m, w, ret);
    RootsOnly(m0, last0, w0, ret);
    assert Up(q).root == q.root;
  }

  lemma NotOld(m0: Memory, w0: World, m: Memory, w: World, ret: nat)
    requires Sprouted(m0, w0, m, w, ret)
    ensures Pos(ret, []) !in w0.tabs
  {}

  lemma SharedPlace(m: Memory, last: nat, w: World, q: Pos)
    requires WorldOk(m, last, w) && q in w.foreign
    ensures |q.path| > 0 && Up(q) in w.tabs && Last(q) < 512
  {}

  /** What a shared place leads to is seen as before, and avoids all that may be written. */
  lemma LikeVisits(m0: Memory, last0: nat, w0: World, m: Memory, w: World, ret: nat, q: Pos, q': Pos)
    requires WorldOk(m0, last0, w0) && Sealed(m0, w0) && Sprouted(m0, w0, m, w, ret) && Like(m0, w0, m, w, q, q')
    requires !Window(q)
    ensures Visits(m, Target(m, w, q), |q.path|, 0) == Visits(m0, Target(m0, w0, q'), |q'.path|, 0)
    ensures Avoids(m, Target(m, w, q), |q.path|, 0, Reach(w))
  {
    hide Visits, Avoids, WorldOk, Target, TabsGrown, Reach, Unused;
    var t := Target(m0, w0, q');
    assert Avoids(m0, t, |q'.path|, 0, Reach(w0));
    OutOfReach(m0, last0, w0, q');
    UnusedReach(w0);
    OnlyInWider(m0, m, Unused(w0), Reach(w0));
    AvoidsSame(m0, m, t, |q'.path|, 0, Reach(w0));
    ReachOf(w0, w, ret);
    AvoidsFewer(m, t, |q'.path|, 0, Reach(w0), Reach(w));
  }

  lemma UnusedReach(w: World)
    ensures Unused(w) <= Reach(w)
  {}

  lemma ReachOf(w0: World, w: World, ret: nat)
    requires TabsGrown(w0, w, ret)
    ensures Reach(w) <= Reach(w0)
  {
    forall v | v in Reach(w) ensures v in Reach(w0) {
      if v in w.free {
        assert v in w0.free;
      } else {
        var p :| p in w.tabs && w.tabs[p] == v;
        if p in w0.tabs { assert w0.tabs[p] == v; } else { assert NewTab(w0, w, ret, p); }
      }
    }
  }

  lemma NewSealed(m0: Memory, last0: nat, w0: World, m: Memory, w: World, ret: nat)
    requires WorldOk(m0, last0, w0) && Sealed(m0, w0) && Sprouted(m0, w0, m, w, ret)
    ensures Sealed(m, w)
  {
    hide Avoids, WorldOk, Target, Sprouted, Visits;
    forall q | q in w.foreign && !Window(q)
      ensures |q.path| > 0 && Up(q) in w.tabs && Avoids(m, Target(m, w, q), |q.path|, 0, Reach(w))
    {
      var q' := LikeOld(m0, last0, w0, m, w, ret, q);
      LikeVisits(m0, last0, w0, m, w, ret, q, q');
    }
  }

  lemma NewPlanted(w0: World, w: World, roots: map<nat, nat>, ids: seq<nat>, ret: nat, id: nat)
    requires Planted(w0, roots) && TabsGrown(w0, w, ret) && id !in roots && Named(roots, ids)
    ensures Planted(w, roots[id := ret]) && Named(roots[id := ret], ids + [id])
  {
    var roots' := roots[id := ret];
    hide RootReach;
    forall p | p in w.tabs ensures p.root in roots'.Values && (|p.path| > 0 ==> p.path[0] != 384) {
      if p in w0.tabs {
        var x :| x in roots && roots[x] == p.root;
        assert roots'[x] == p.root;
      } else {
        assert NewTab(w0, w, ret, p);
        assert roots'[id] == ret;
      }
    }
  }

  /** Whatever the new root leads to is owed by another root already, or a page it was made of. */
  lemma NewOwed(m0: Memory, last0: nat, w0: World, roots: map<nat, nat>, ids: seq<nat>, m: Memory, last: nat, w: World,
                ret: nat)
    requires Structured(m0, last0, w0, roots) && Named(roots, ids) && Sprouted(m0, w0, m, w, ret) && WorldOk(m, last, w)
    ensures forall x :: x in RootVisits(m, ret) ==> x in Total(m0, roots, ids) || x in NewPages(w0, w)
  {
    var s := Total(m0, roots, ids) + multiset(NewPages(w0, w));
    NewAmong(m0, last0, w0, roots, ids, m, last, w, ret, s);
    hide Total, Visits, NewWithin, NewPages, WorldOk, Structured, Sprouted;
    NewVisits(m, last, w, ret, Pos(ret, []), 0, s);
    forall x | x in RootVisits(m, ret) ensures x in Total(m0, roots, ids) || x in NewPages(w0, w) {
      assert x in Visits(m, ret, 0, 0) || x == ret;
      assert x in s;
    }
  }

  lemma NewAmong(m0: Memory, last0: nat, w0: World, roots: map<nat, nat>, ids: seq<nat>, m: Memory, last: nat, w: World,
                 ret: nat, s: multiset<nat>)
    requires Structured(m0, last0, w0, roots) && Named(roots, ids) && Sprouted(m0, w0, m, w, ret) && WorldOk(m, last, w)
    requires s == Total(m0, roots, ids) + multiset(NewPages(w0, w))
    ensures NewWithin(m, w, ret, s) && Pos(ret, []) in w.tabs && w.tabs[Pos(ret, [])] == ret && ret in s
  {
    hide Total, Visits, WorldOk, Sealed, Target, Planted, Named, OnlyIn, RootReach, NewTab, CopiedPlace, NewPages;
    assert Pos(ret, []) in w.tabs && w.tabs[Pos(ret, [])] == ret;
    hide Sprouted;
    NewTabs(m0, last0, w0, m, last, w, ret, Pos(ret, []));
    forall p | p in w.tabs && p.root == ret ensures TabWithin(w, p, s) { NewTabs(m0, last0, w0, m, last, w, ret, p); }
    forall q | q in w.foreign && q.root == ret && !Window(q)
      ensures |q.path| > 0 && Up(q) in w.tabs
      ensures Visits(m, Target(m, w, q), |q.path|, 0) + multiset{Target(m, w, q)} <= s
    {
      var q' := LikeOld(m0, last0, w0, m, w, ret, q);
      LikeVisits(m0, last0, w0, m, w, ret, q, q');
      SharedOwed(m0, last0, w0, roots, ids, q');
    }
  }

  lemma NewTabs(m0: Memory, last0: nat, w0: World, m: Memory, last: nat, w: World, ret: nat, p: Pos)
    requires WorldOk(m0, last0, w0) && Sprouted(m0, w0, m, w, ret) && WorldOk(m, last, w) && p in w.tabs
    requires p.root == ret
    ensures |p.path| < 3 && w.tabs[p] in NewPages(w0, w)
  {
    hide RootReach, OnlyIn;
    RootsOnly(m0, last0, w0, ret);
    assert NewTab(w0, w, ret, p);
    assert w.tabs[p] in w.tabs.Values;
  }

  /** Every page the new root was made of is met from it. */
  lemma NewMet(m0: Memory, last0: nat, w0: World, m: Memory, last: nat, w: World, ret: nat, f: nat)
    requires WorldOk(m0, last0, w0) && Sprouted(m0, w0, m, w, ret) && WorldOk(m, last, w) && f in NewPages(w0, w)
    ensures f in RootVisits(m, ret)
  {
    hide OnlyIn, Visits, RootVisits, WorldOk, NewTab;
    assert f in Unused(w0) && f !in w.free;
    assert f in RootReach(w, ret);
    var p :| p in w.tabs && p.root == ret && w.tabs[p] == f;
    RootsOnly(m0, last0, w0, ret);
    assert NewTab(w0, w, ret, p);
    NewTabIs(w0, w, ret, p);
    hide Sprouted;
    TableMet(m, last, w, p);
    assert f in Visits(m, w.tabs[p], |p.path|, 0) + multiset{f};
  }

  lemma NewTabIs(w0: World, w: World, ret: nat, p: Pos)
    requires NewTab(w0, w, ret, p)
    ensures |p.path| < 3 && (|p.path| > 0 ==> p.path[0] != 384)
  {}

  /** No window leads to what the roots lead to, the new one included. */
  lemma NewWindows(m0: Memory, last0: nat, w0: World, m: Memory, w: World, ret: nat, s0: multiset<nat>,
                   s: multiset<nat>)
    requires WorldOk(m0, last0, w0) && Sprouted(m0, w0, m, w, ret) && WindowsApart(m0, w0, s0)
    requires forall x :: x in s ==> x in s0 || x in NewPages(w0, w)
    ensures WindowsApart(m, w, s)
  {
    hide WorldOk, Sprouted, Target;
    forall q | q in w.foreign && Window(q) && Up(q) in w.tabs ensures Target(m, w, q) !in s {
      var q' := LikeOld(m0, last0, w0, m, w, ret, q);
      OutOfReach(m0, last0, w0, q');
      UnusedReach(w0);
      assert Target(m0, w0, q') !in s0;
    }
  }

  /** The counts after the new root was counted. */
  lemma NewEven(base: map<nat, nat>, c0: map<nat, nat>, owed: multiset<nat>, free0: seq<nat>, pool: set<nat>,
                c: map<nat, nat>, free: seq<nat>, s: multiset<nat>)
    requires Even(base, c0, owed, free0, pool) && CountsMore(c0, c, s) && Distinct(free)
    requires forall f :: f in free ==> f in free0 && f !in s
    requires forall f :: f in free0 && f !in free ==> f in s
    requires forall x :: x in s ==> x in owed || x in free0
    ensures Even(base, c, owed + s, free, pool)
  {
    MoreTwice(base, c0, c, owed, s);
    forall p: nat ensures multiset(free)[p] == if p in pool && Count(c, p) == 0 then 1 else 0 {
      CountAt(c0, c, s, p);
      CountAt(base, c0, owed, p);
      PooledAt(free0, c0, pool, p);
      DistinctOnce(free, p);
      hide Even, CountsMore, Count;
    }
    forall p: nat | Count(c, p) > 0 ensures p in pool {
      CountAt(c0, c, s, p);
      CountAt(base, c0, owed, p);
      PooledAt(free0, c0, pool, p);
      hide Even, CountsMore, Count;
    }
  }

  lemma DistinctOnce(s: seq<nat>, p: nat)
    requires Distinct(s)
    ensures multiset(s)[p] == if p in s then 1 else 0
  {
    if s != [] {
      assert s == [s[0]] + s[1..];
      assert multiset(s) == multiset{s[0]} + multiset(s[1..]);
      assert s[0] !in s[1..];
      DistinctOnce(s[1..], p);
    }
  }

  /** The state with the new root, counted. */
  lemma RootMade(f: Frame, s0: Snap, s: Snap, ret: nat, id: nat)
    requires Whole(f, s0) && Sprouted(s0.mem, s0.w, s.mem, s.w, ret) && WorldOk(s.mem, s.last, s.w) && id !in f.roots
    requires s.lost == s0.lost && CountsMore(s0.counts, s.counts, RootVisits(s.mem, ret))
    ensures Whole(Frame(f.roots[id := ret], f.ids + [id], f.base, f.pool), s) && ret in s0.w.free
    ensures forall x :: x in f.roots ==> RootVisits(s.mem, f.roots[x]) == RootVisits(s0.mem, f.roots[x])
  {
    hide *;
    MadeBefore(f, s0, s, ret);
    var visits := RootVisits(s.mem, ret);
    NewOwed(s0.mem, s0.last, s0.w, f.roots, f.ids, s.mem, s.last, s.w, ret);
    NewSealed(s0.mem, s0.last, s0.w, s.mem, s.w, ret);
    NewPlanted(s0.w, s.w, f.roots, f.ids, ret, id);
    SproutTotal(s0.mem, s0.w, s.mem, f.roots, f.ids);
    NotNamed(f, id);
    TotalMore(s.mem, f.roots, f.ids, id, ret);
    forall x | x in Owed(f, s0) + visits ensures x in Owed(f, s0) || x in NewPages(s0.w, s.w) {}
    NewWindows(s0.mem, s0.last, s0.w, s.mem, s.w, ret, Owed(f, s0), Owed(f, s0) + visits);
    MadeEven(f, s0, s, ret);
    MadeWhole(f, s0, s, ret, id);
  }

  lemma NotNamed(f: Frame, id: nat)
    requires Named(f.roots, f.ids) && id !in f.roots
    ensures id !in f.ids
  {}

  /** What the old state says. */
  lemma MadeBefore(f: Frame, s0: Snap, s: Snap, ret: nat)
    requires Whole(f, s0) && Sprouted(s0.mem, s0.w, s.mem, s.w, ret)
    ensures Structured(s0.mem, s0.last, s0.w, f.roots) && Named(f.roots, f.ids)
    ensures WindowsApart(s0.mem, s0.w, Owed(f, s0))
    ensures WorldOk(s0.mem, s0.last, s0.w) && Sealed(s0.mem, s0.w) && Planted(s0.w, f.roots)
    ensures Owed(f, s0) == Total(s0.mem, f.roots, f.ids)
    ensures Even(f.base, s0.counts, s0.lost + Owed(f, s0), s0.w.free, f.pool) && TabsGrown(s0.w, s.w, ret)
    ensures OnlyIn(s0.mem, s.mem, Unused(s0.w))
    ensures (forall id :: id in f.roots ==> IsPage(f.roots[id])) && (forall p :: p in Owed(f, s0) ==> p !in s0.w.free)
    ensures ret in s0.w.free
  {
    hide Total, Sealed, WindowsApart, Even, OnlyIn, RootReach, Named, TabsGrown;
    forall id | id in f.roots ensures IsPage(f.roots[id]) { assert s0.w.tabs[Pos(f.roots[id], [])] == f.roots[id]; }
    RootTaken(s0, s, ret);
    hide WorldOk, Planted, Sprouted;
    forall p | p in Owed(f, s0) ensures p !in s0.w.free {
      OwedUsed(f.base, s0.counts, s0.lost, Owed(f, s0), s0.w.free, f.pool, p);
    }
  }

  lemma RootTaken(s0: Snap, s: Snap, ret: nat)
    requires WorldOk(s0.mem, s0.last, s0.w) && Sprouted(s0.mem, s0.w, s.mem, s.w, ret)
    ensures ret in s0.w.free
  {
    hide WorldOk, OnlyIn, RootReach;
    assert NewTab(s0.w, s.w, ret, Pos(ret, []));
  }

  lemma OwedUsed(base: map<nat, nat>, c: map<nat, nat>, lost: multiset<nat>, owed: multiset<nat>, free: seq<nat>,
                 pool: set<nat>, p: nat)
    requires Even(base, c, lost + owed, free, pool) && p in owed
    ensures p !in free
  {
    CountAt(base, c, lost + owed, p);
    PooledAt(free, c, pool, p);
  }

  lemma MadeEven(f: Frame, s0: Snap, s: Snap, ret: nat)
    requires Whole(f, s0) && Sprouted(s0.mem, s0.w, s.mem, s.w, ret) && WorldOk(s.mem, s.last, s.w)
    requires s.lost == s0.lost && CountsMore(s0.counts, s.counts, RootVisits(s.mem, ret))
    ensures Even(f.base, s.counts, s0.lost + Owed(f, s0) + RootVisits(s.mem, ret), s.w.free, f.pool)
  {
    hide RootVisits, Total, Whole, Sprouted, WorldOk, Even, CountsMore, Structured, Owed;
    MadeBefore(f, s0, s, ret);
    NewOwed(s0.mem, s0.last, s0.w, f.roots, f.ids, s.mem, s.last, s.w, ret);
    ListFacts(s.mem, s.last, s.w);
    var visits := RootVisits(s.mem, ret);
    forall x | x in s.w.free ensures x in s0.w.free && x !in visits { StillUnused(s0.w, s.w, ret, x); }
    forall x | x in s0.w.free && x !in s.w.free ensures x in visits {
      NewMet(s0.mem, s0.last, s0.w, s.mem, s.last, s.w, ret, x);
    }
    NewEven(f.base, s0.counts, s0.lost + Owed(f, s0), s0.w.free, f.pool, s.counts, s.w.free, visits);
  }

  lemma StillUnused(w0: World, w: World, ret: nat, x: nat)
    requires TabsGrown(w0, w, ret) && x in w.free
    ensures x in w0.free && x !in NewPages(w0, w)
  {}

  lemma ListFacts(m: Memory, last: nat, w: World)
    requires WorldOk(m, last, w)
    ensures Distinct(w.free) && Listed(m, last, w.free)
  {}

  lemma MadeWhole(f: Frame, s0: Snap, s: Snap, ret: nat, id: nat)
    requires WorldOk(s.mem, s.last, s.w) && Sealed(s.mem, s.w) && Planted(s.w, f.roots[id := ret])
    requires Named(f.roots[id := ret], f.ids + [id])
    requires WindowsApart(s.mem, s.w, Owed(f, s0) + RootVisits(s.mem, ret)) && s.lost == s0.lost
    requires Even(f.base, s.counts, s0.lost + Owed(f, s0) + RootVisits(s.mem, ret), s.w.free, f.pool)
    requires Total(s.mem, f.roots[id := ret], f.ids + [id]) == Total(s.mem, f.roots, f.ids) + RootVisits(s.mem, ret)
    requires Total(s.mem, f.roots, f.ids) == Total(s0.mem, f.roots, f.ids)
    requires Owed(f, s0) == Total(s0.mem, f.roots, f.ids)
    ensures Whole(Frame(f.roots[id := ret], f.ids + [id], f.base, f.pool), s)
  {
    hide WorldOk, Sealed, Planted, Named, WindowsApart, Even, Total, RootVisits;
    assert s0.lost + Owed(f, s0) + RootVisits(s.mem, ret) == s0.lost + (Owed(f, s0) + RootVisits(s.mem, ret));
  }

  // ----- a root imported

  /** A root that may be imported: nothing it leads to is on the list, and page 0 is not used. */
  ghost predicate Fresh(m: Memory, free: seq<nat>, cr3: nat) {
    IsPage(cr3) && forall p :: p in RootVisits(m, cr3) ==> p !in free && p != 0
  }

  /**
   * A root to be imported, with the tables that are to be its own: those of w1 that the world does not have. All else
   * that it leads to is shared.
   */
  ghost predicate Importable(f: Frame, s: Snap, w1: World, cr3: nat) {
    && w1.free == s.w.free && WorldOk(s.mem, s.last, w1) && Sealed(s.mem, w1) && Pos(cr3, []) in w1.tabs
    && (forall id :: id in f.roots ==> f.roots[id] != cr3 && Pos(f.roots[id], []) in w1.tabs)
    && (forall p :: p in w1.tabs ==> (p.root == cr3 || p.root in f.roots.Values) && (|p.path| > 0 ==> p.path[0] != 384))
    && WindowsApart(s.mem, w1, Owed(f, s) + RootVisits(s.mem, cr3))
  }

  ghost function Visited(m: Memory, cr3: nat): set<nat> {
    set p | p in RootVisits(m, cr3)
  }

  ghost function Import(f: Frame, m: Memory, cr3: nat, id: nat): Frame {
    Frame(f.roots[id := cr3], f.ids + [id], f.base, f.pool + Visited(m, cr3))
  }

  lemma FreshRoot(m: Memory, free: seq<nat>, cr3: nat)
    requires Fresh(m, free, cr3)
    ensures IsPage(cr3) && cr3 != 0
  {
    assert cr3 in RootVisits(m, cr3);
    hide RootVisits;
  }

  lemma IdsNamed(roots: map<nat, nat>, ids: seq<nat>, id: nat, cr3: nat)
    requires Named(roots, ids) && id !in ids
    ensures Named(roots[id := cr3], ids + [id])
  {}

  lemma ImportedEven(f: Frame, s: Snap, c: map<nat, nat>, cr3: nat, id: nat)
    requires Named(f.roots, f.ids) && id !in f.ids && Fresh(s.mem, s.w.free, cr3)
    requires CountsMore(s.counts, c, RootVisits(s.mem, cr3))
    requires Even(f.base, s.counts, s.lost + Total(s.mem, f.roots, f.ids), s.w.free, f.pool)
    ensures var f' := Import(f, s.mem, cr3, id);
      Even(f.base, c, s.lost + Total(s.mem, f'.roots, f'.ids), s.w.free, f'.pool) && Named(f'.roots, f'.ids)
  {
    hide Total, RootVisits, CountsMore, Pooled;
    var visits, total := RootVisits(s.mem, cr3), Total(s.mem, f.roots, f.ids);
    IdsNamed(f.roots, f.ids, id, cr3);
    TotalMore(s.mem, f.roots, f.ids, id, cr3);
    MoreTwice(f.base, s.counts, c, s.lost + total, visits);
    assert s.lost + total + visits == s.lost + (total + visits);
    assert 0 !in visits && forall p :: p in visits ==> p !in s.w.free;
    PooledMore(s.w.free, s.counts, c, visits, f.pool, f.pool + Visited(s.mem, cr3));
  }

  lemma ImportedWhole(f: Frame, s: Snap, w1: World, c: map<nat, nat>, cr3: nat, id: nat)
    requires Whole(f, s) && id !in f.ids && Fresh(s.mem, s.w.free, cr3) && Importable(f, s, w1, cr3)
    requires CountsMore(s.counts, c, RootVisits(s.mem, cr3))
    ensures Whole(Import(f, s.mem, cr3, id), Snap(s.mem, s.last, w1, c, s.lost))
  {
    hide Total, RootVisits, CountsMore, Even, WorldOk, Sealed, WindowsApart, Structured, Fresh;
    ImportedEven(f, s, c, cr3, id);
    TotalMore(s.mem, f.roots, f.ids, id, cr3);
    ImportedPlanted(f, s, w1, cr3, id);
    hide Planted, Named, Importable;
    assert Structured(s.mem, s.last, w1, f.roots[id := cr3]) by { StructuredOf(s.mem, s.last, w1, f.roots[id := cr3]); }
  }

  lemma StructuredOf(m: Memory, last: nat, w: World, roots: map<nat, nat>)
    requires WorldOk(m, last, w) && Sealed(m, w) && Planted(w, roots)
    ensures Structured(m, last, w, roots)
  {}

  lemma ImportedPlanted(f: Frame, s: Snap, w1: World, cr3: nat, id: nat)
    requires Whole(f, s) && id !in f.ids && Importable(f, s, w1, cr3)
    ensures Planted(w1, f.roots[id := cr3]) && WorldOk(s.mem, s.last, w1) && Sealed(s.mem, w1) && w1.free == s.w.free
    ensures WindowsApart(s.mem, w1, Owed(f, s) + RootVisits(s.mem, cr3))
  {
    hide Total, RootVisits, Even, WorldOk, Sealed, WindowsApart;
    var roots' := f.roots[id := cr3];
    assert id !in f.roots;
    forall p | p in w1.tabs ensures p.root in roots'.Values {
      if p.root == cr3 {
        assert roots'[id] == p.root;
      } else {
        var x :| x in f.roots && f.roots[x] == p.root;
        assert roots'[x] == p.root;
      }
    }
  }

  // ----- a root dropped

  ghost function Drop(f: Frame, id: nat): Frame {
    Frame(f.roots - {id}, Without(f.ids, id), f.base, f.pool)
  }

  lemma CutIs(w: World, w0: World, root: nat, free: seq<nat>)
    requires w.tabs == w0.tabs && w.foreign == w0.foreign
    ensures Cut(w, root, free) == Cut(w0, root, free) && Cut(w, root, free).free == free
  {}

  /** What is left of the other roots when one has been counted back. */
  lemma DroppedStanding(f: Frame, s: Snap, id: nat, m: Memory, free: seq<nat>, c: map<nat, nat>)
    requires Named(f.roots, f.ids) && id in f.roots && (forall x :: x in f.roots ==> IsPage(f.roots[x]))
    requires Dropped(s.mem, s.w.free, s.counts, m, free, c, RootVisits(s.mem, f.roots[id]))
    requires Covered(c, Total(s.mem, Drop(f, id).roots, Drop(f, id).ids)) && Pooled(free, c, f.pool)
    ensures Standing(s.mem, m, free, Total(s.mem, Drop(f, id).roots, Drop(f, id).ids))
    ensures forall x :: x in free ==> x in s.w.free || x in RootVisits(s.mem, f.roots[id])
    ensures forall x :: x in Drop(f, id).roots ==> RootVisits(m, f.roots[x]) == RootVisits(s.mem, f.roots[x])
  {
    hide *;
    DropNamed(f, id);
    StandingPages(f.roots - {id}, Drop(f, id).ids, s.mem, s.w.free, s.counts, m, free, c,
                  RootVisits(s.mem, f.roots[id]), f.pool);
    FreedAmong(s.mem, s.w.free, s.counts, m, free, c, RootVisits(s.mem, f.roots[id]));
    StandingRoots(f.roots - {id}, Drop(f, id).ids, s.mem, m, free);
  }

  lemma DropNamed(f: Frame, id: nat)
    requires Named(f.roots, f.ids)
    ensures Named(Drop(f, id).roots, Drop(f, id).ids) && Drop(f, id).roots == f.roots - {id}
  {
    WithoutDistinct(f.ids, id);
  }

  lemma StandingPages(roots: map<nat, nat>, ids: seq<nat>, m: Memory, free: seq<nat>, c: map<nat, nat>, m': Memory,
                      free': seq<nat>, c': map<nat, nat>, s: multiset<nat>, pool: set<nat>)
    requires Dropped(m, free, c, m', free', c', s) && Covered(c', Total(m, roots, ids)) && Pooled(free', c', pool)
    requires forall x :: x in roots ==> IsPage(roots[x])
    ensures Standing(m, m', free', Total(m, roots, ids))
  {
    hide Total, WordsSame, Count, Pooled, Covered;
    var left := Total(m, roots, ids);
    forall p | p in left ensures WordsSame(m, m', p) && p !in free' {
      TotalPages(m, roots, ids, p);
      CoveredAt(c', left, p);
      PooledAt(free', c', pool, p);
    }
  }

  lemma FreedAmong(m: Memory, free: seq<nat>, c: map<nat, nat>, m': Memory, free': seq<nat>, c': map<nat, nat>,
                   s: multiset<nat>)
    requires Dropped(m, free, c, m', free', c', s)
    ensures forall x :: x in free' ==> x in free || x in s
  {
    hide WordsSame, Count, CountsMore;
    forall x | x in free' ensures x in free || x in s {
      assert multiset(free')[x] == multiset(free)[x] + if x in s && Count(c', x) == 0 then 1 else 0;
    }
  }

  lemma StandingRoots(roots: map<nat, nat>, ids: seq<nat>, m: Memory, m': Memory, free': seq<nat>)
    requires Named(roots, ids) && Standing(m, m', free', Total(m, roots, ids))
    ensures forall x :: x in roots ==> RootVisits(m', roots[x]) == RootVisits(m, roots[x])
  {
    hide Total, RootVisits, WordsSame, Named;
    assert forall p :: p in Total(m, roots, ids) ==> WordsSame(m, m', p);
    forall x | x in roots ensures RootVisits(m', roots[x]) == RootVisits(m, roots[x]) {
      RootKept(m, m', roots, ids, x);
    }
  }

  /** What a root that is to be dropped owes is counted, and so is what the others owe. */
  lemma DropCovered(f: Frame, s: Snap, id: nat)
    requires Named(f.roots, f.ids) && id in f.roots
    requires Even(f.base, s.counts, s.lost + Total(s.mem, f.roots, f.ids), s.w.free, f.pool)
    ensures Covered(s.counts, RootVisits(s.mem, f.roots[id]) + Total(s.mem, Drop(f, id).roots, Drop(f, id).ids))
    ensures Pooled(s.w.free, s.counts, f.pool)
  {
    hide Total, RootVisits, CountsMore, Covered, Pooled;
    TotalLess(s.mem, f.roots, f.ids, id);
    CoveredOf(f.base, s.counts, s.lost + Total(s.mem, f.roots, f.ids));
    CoveredPart(s.counts, s.lost, Total(s.mem, f.roots, f.ids));
  }

  /** The counts when a root has been counted back. */
  lemma DropEven(f: Frame, s: Snap, id: nat, m: Memory, last: nat, free: seq<nat>, c: map<nat, nat>)
    requires Named(f.roots, f.ids) && id in f.roots && (forall x :: x in f.roots ==> IsPage(f.roots[x]))
    requires Even(f.base, s.counts, s.lost + Total(s.mem, f.roots, f.ids), s.w.free, f.pool)
    requires Dropped(s.mem, s.w.free, s.counts, m, free, c, RootVisits(s.mem, f.roots[id])) && Pooled(free, c, f.pool)
    ensures Even(f.base, c, s.lost + Total(m, Drop(f, id).roots, Drop(f, id).ids), free, f.pool)
    ensures Total(m, Drop(f, id).roots, Drop(f, id).ids) == Total(s.mem, Drop(f, id).roots, Drop(f, id).ids)
    ensures Named(Drop(f, id).roots, Drop(f, id).ids)
    ensures Standing(s.mem, m, free, Total(s.mem, Drop(f, id).roots, Drop(f, id).ids))
    ensures forall x :: x in free ==> x in s.w.free || x in RootVisits(s.mem, f.roots[id])
    ensures forall x :: x in Drop(f, id).roots ==> RootVisits(m, f.roots[x]) == RootVisits(s.mem, f.roots[x])
  {
    hide Total, RootVisits, CountsMore, Covered, Pooled, Dropped, Without, Standing;
    var cr3, left := f.roots[id], Total(s.mem, Drop(f, id).roots, Drop(f, id).ids);
    TotalLess(s.mem, f.roots, f.ids, id);
    assert s.lost + (RootVisits(s.mem, cr3) + left) == RootVisits(s.mem, cr3) + (s.lost + left);
    RootGone(s.mem, s.w.free, s.counts, m, free, c, f.base, cr3, s.lost, Drop(f, id).roots, Drop(f, id).ids);
    DropNamed(f, id);
    DroppedStanding(f, s, id, m, free, c);
  }

  lemma DroppedWhole(f: Frame, s: Snap, id: nat, s': Snap)
    requires Whole(f, s) && id in f.roots && Listed(s'.mem, s'.last, s'.w.free) && s'.lost == s.lost
    requires Standing(s.mem, s'.mem, s'.w.free, Total(s.mem, Drop(f, id).roots, Drop(f, id).ids))
    requires forall x :: x in s'.w.free ==> x in s.w.free || x in RootVisits(s.mem, f.roots[id])
    requires s'.w == Cut(s.w, f.roots[id], s'.w.free)
    requires Total(s'.mem, Drop(f, id).roots, Drop(f, id).ids) == Total(s.mem, Drop(f, id).roots, Drop(f, id).ids)
    requires Even(f.base, s'.counts, s'.lost + Total(s'.mem, Drop(f, id).roots, Drop(f, id).ids), s'.w.free, f.pool)
    ensures Whole(Drop(f, id), s')
  {
    hide Total, RootVisits, Even, Listed, Structured, WindowsApart, Standing, Cut;
    WithoutDistinct(f.ids, id);
    assert Named(f.roots - {id}, Without(f.ids, id));
    CutStructured(s.mem, s.last, s.w, f.roots, f.ids, id, s'.mem, s'.last, s'.w.free);
  }

  // ----- ids

  /** Ids are handed out in order; only live roots are referred to, and no root table is null. */
  ghost predicate IdsFine(ids: seq<nat>, nextId: nat, rootCount: map<nat, nat>, roots: map<nat, nat>) {
    && (forall id :: id in ids ==> id < nextId) && (forall id :: Count(rootCount, id) > 0 ==> id in roots)
    && (forall id :: id in roots ==> roots[id] != 0)
  }

  lemma IdsMore(ids: seq<nat>, id: nat, rootCount: map<nat, nat>, roots: map<nat, nat>, cr3: nat)
    requires IdsFine(ids, id, rootCount, roots) && cr3 != 0
    ensures IdsFine(ids + [id], id + 1, rootCount, roots[id := cr3]) && id !in ids
  {}

  lemma IdsLess(ids: seq<nat>, nextId: nat, rootCount: map<nat, nat>, roots: map<nat, nat>, id: nat)
    requires IdsFine(ids, nextId, rootCount, roots)
    ensures IdsFine(Without(ids, id), nextId, rootCount - {id}, roots - {id})
  {
    CountsWithout(rootCount, id);
    hide Count, Without;
  }

  /** Everything that holds of the roots holds with the imported one. */
  lemma ImportedFine(f: Frame, s: Snap, w1: World, c: map<nat, nat>, refs: map<nat, nat>, cr3: nat, id: nat)
    requires Whole(f, s) && IdsFine(f.ids, id, refs, f.roots) && Fresh(s.mem, s.w.free, cr3)
    requires Importable(f, s, w1, cr3)
    requires CountsMore(s.counts, c, RootVisits(s.mem, cr3))
    ensures Whole(Import(f, s.mem, cr3, id), Snap(s.mem, s.last, w1, c, s.lost))
    ensures IdsFine(f.ids + [id], id + 1, refs, f.roots[id := cr3])
  {
    hide *;
    FreshRoot(s.mem, s.w.free, cr3);
    IdsMore(f.ids, id, refs, f.roots, cr3);
    ImportedWhole(f, s, w1, c, cr3, id);
  }

  // ----- what every root shares with the kernel

  const WINDOW_BASE: nat := 0xffff_c000_0000_0000
  const TASK_BASE: nat := 0xffff_ffff_ffe0_0000
  const DESC_BASE: nat := 0xffff_ffff_ffc0_0000
  const STATUS_BASE: nat := 0xffff_9000_0000_0000

  /** The entries of the kernel's regions in a root: the window, and four tables of pages. */
  lemma KernelPaths(root: nat)
    ensures At(root, WINDOW_BASE, 1) == Pos(root, [384])
    ensures At(root, TASK_BASE, 3) == Pos(root, [511, 511, 511]) && At(root, DESC_BASE, 3) == Pos(root, [511, 511, 510])
    ensures At(root, KMEM_BASE_ADDR, 3) == Pos(root, [511, 511, 509])
    ensures At(root, STATUS_BASE, 3) == Pos(root, [288, 0, 0])
  {
    KernelPath(root, TASK_BASE, 511, 511, 511);
    KernelPath(root, DESC_BASE, 511, 511, 510);
    KernelPath(root, KMEM_BASE_ADDR, 511, 511, 509);
    KernelPath(root, STATUS_BASE, 288, 0, 0);
    assert At(root, WINDOW_BASE, 1) == Down(At(root, WINDOW_BASE, 0), 384);
    assert [] + [384] == [384];
  }

  lemma KernelPath(root: nat, va: nat, a: nat, b: nat, c: nat)
    requires Index(va, 0) == a && Index(va, 1) == b && Index(va, 2) == c
    ensures At(root, va, 1) == Pos(root, [a]) && At(root, va, 2) == Pos(root, [a, b])
    ensures At(root, va, 3) == Pos(root, [a, b, c])
  {
    assert At(root, va, 1) == Down(At(root, va, 0), a);
    assert [] + [a] == [a] && [a] + [b] == [a, b] && [a, b] + [c] == [a, b, c];
  }

  ghost predicate KernelAt(w: World, current: nat, base: nat) {
    At(current, base, 2) in w.tabs && At(current, base, 3) in w.foreign
  }

  /** The root has the kernel's regions, by way of shared tables. */
  ghost predicate KernelOk(w: World, current: nat) {
    && Pos(current, []) in w.tabs && Pos(current, [384]) !in w.tabs
    && KernelAt(w, current, TASK_BASE) && KernelAt(w, current, DESC_BASE)
    && KernelAt(w, current, KMEM_BASE_ADDR) && KernelAt(w, current, STATUS_BASE)
  }

  /** The only new shared places so far are these. */
  ghost predicate SharedOnly(w0: World, w: World, s: set<Pos>) {
    forall q {:trigger q in w.foreign} :: q in w.foreign ==> q in w0.foreign || q in s
  }

  /** The walk to the next region meets no shared place. */
  lemma OwnNext(m0: Memory, last0: nat, w0: World, w: World, ret: nat, va: nat, level: nat, s: set<Pos>)
    requires WorldOk(m0, last0, w0) && TabsGrown(w0, w, ret) && SharedOnly(w0, w, s)
    requires forall n {:trigger At(ret, va, n)} :: 0 < n <= level ==> At(ret, va, n) !in s
    ensures OwnTo(w, ret, va, level)
  {
    hide WorldOk, RootReach, NewTab, Index;
    forall n | 0 < n <= level ensures At(ret, va, n) !in w.foreign {
      if At(ret, va, n) in w0.foreign {
        SharedPlace(m0, last0, w0, At(ret, va, n));
        RootsOnly(m0, last0, w0, ret);
      }
    }
  }

  lemma {:induction false} SamePathAt(root: nat, root': nat, va: nat, n: nat)
    ensures At(root, va, n).path == At(root', va, n).path
    decreases n
  {
    hide Index;
    if n > 0 { SamePathAt(root, root', va, n - 1); }
  }

  /** Sharing an entry of a root with the new root, all in one. */
  lemma SproutEntry(m0: Memory, last0: nat, w0: World, m1: Memory, last: nat, w1: World, ret: nat, current: nat,
                    va: nat, level: nat)
    requires Sprouted(m0, w0, m1, w1, ret) && WorldOk(m1, last, w1) && WorldOk(m0, last0, w0) && level < 3
    requires At(ret, va, level) in w1.tabs && At(ret, va, level + 1) !in w1.foreign
    requires At(current, va, level) in w0.tabs && At(current, va, level + 1) !in w0.tabs && current != ret
    requires (level == 2 || (level == 0 && Index(va, 0) == 384))
    ensures At(current, va, level) in w1.tabs
    ensures var e := Load(m1, w1.tabs[At(current, va, level)] + 8 * Index(va, level));
      var w := if Present(e) then w1.(foreign := w1.foreign + {At(ret, va, level + 1)}) else w1;
      var m := m1[w1.tabs[At(ret, va, level)] + 8 * Index(va, level) := e];
      Sprouted(m0, w0, m, w, ret) && WorldOk(m, last, w)
  {
    hide WorldOk, Sprouted, Load, Present;
    var p, u, i := At(ret, va, level), At(current, va, level), Index(va, level);
    assert At(ret, va, level + 1) == Down(p, i) && At(current, va, level + 1) == Down(u, i) && |p.path| == level;
    assert |u.path| == level;
    SamePathAt(ret, current, va, level + 1);
    assert Window(Down(u, i)) <==> Window(Down(p, i));
    NotYet(m0, last0, w0, m1, w1, ret, va, level);
    hide *;
    SproutShared(m0, last0, w0, m1, last, w1, ret, p, i, u, i);
  }

  /** The new root has no table where the entry is to be shared. */
  lemma NotYet(m0: Memory, last0: nat, w0: World, m1: Memory, w1: World, ret: nat, va: nat, level: nat)
    requires WorldOk(m0, last0, w0) && Sprouted(m0, w0, m1, w1, ret)
    requires (level == 2 || (level == 0 && Index(va, 0) == 384))
    ensures At(ret, va, level + 1) !in w1.tabs
  {
    hide WorldOk, OnlyIn, RootReach, Index;
    var q := At(ret, va, level + 1);
    FirstDigit(ret, va, level + 1);
    assert q.path[0] == Index(va, 0);
    NotOld(m0, w0, m1, w1, ret);
    RootsOnly(m0, last0, w0, ret);
    assert q in w1.tabs ==> NewTab(w0, w1, ret, q);
  }

  // ----- sharing, step by step

  /** Where an entry of a root is, when the walk to it exists. */
  lemma PlaceFound(m: Memory, last: nat, w: World, root: nat, va: nat, level: nat)
    requires WorldOk(m, last, w) && level <= 2 && At(root, va, level) in w.tabs
    ensures OwnTo(w, root, va, level)
    ensures PagingAddr(m, root, va, level) == Some(w.tabs[At(root, va, level)] + 8 * Index(va, level))
  {
    forall n | 0 < n <= level ensures At(root, va, n) !in w.foreign { OnWalk(w, root, va, n, level); }
    OnWalk(w, root, va, 0, level);
    hide Index, EntriesOk, FreeOk;
    WalkTells(m, w, root, va, level);
  }

  /** The new root has the word of the current one at an entry of its own. */
  ghost predicate CopiedAt(m0: Memory, w0: World, current: nat, m: Memory, w: World, ret: nat, va: nat, level: nat) {
    var p, u, i := At(ret, va, level), At(current, va, level), Index(va, level);
    && p in w.tabs && u in w0.tabs && Word(m, w, p, i) == Word(m0, w0, u, i)
    && (Present(Word(m0, w0, u, i)) ==> At(ret, va, level + 1) in w.foreign)
  }

  lemma CopiedBuilt(m0: Memory, w0: World, current: nat, m1: Memory, w1: World, m: Memory, w: World, ret: nat, va: nat,
                    level: nat)
    requires CopiedAt(m0, w0, current, m1, w1, ret, va, level) && TablesBuilt(m1, w1, m, w) && w1.foreign <= w.foreign
    requires level < 3 && At(ret, va, level + 1) !in w.tabs
    ensures CopiedAt(m0, w0, current, m, w, ret, va, level)
  {
    var p, i := At(ret, va, level), Index(va, level);
    assert At(ret, va, level + 1) == Down(p, i) && |p.path| == level;
    hide At, Index, Present;
    assert Word(m, w, p, i) == Word(m1, w1, p, i);
  }

  /** Another entry is written. */
  lemma CopiedWrite(m0: Memory, w0: World, current: nat, m1: Memory, w1: World, m: Memory, w: World, ret: nat, va: nat,
                    level: nat, p: Pos, i: nat, e: nat)
    requires CopiedAt(m0, w0, current, m1, w1, ret, va, level) && TabsOk(w1) && p in w1.tabs && i < 512
    requires m == m1[w1.tabs[p] + 8 * i := e] && w.tabs == w1.tabs && w1.foreign <= w.foreign
    requires At(ret, va, level + 1) != Down(p, i)
    ensures CopiedAt(m0, w0, current, m, w, ret, va, level)
  {
    var q, j := At(ret, va, level), Index(va, level);
    assert At(ret, va, level + 1) == Down(q, j);
    hide At, Index, Present, TabsOk;
    if w1.tabs[q] + 8 * j == w1.tabs[p] + 8 * i { SlotsDistinct(w1, q, j, p, i); }
  }

  lemma IndexSmall(va: nat, level: nat)
    ensures Index(va, level) < 512
  {
    hide Index;
  }

  /** The entry itself is written. */
  lemma CopiedNow(m0: Memory, last0: nat, w0: World, m1: Memory, w1: World, ret: nat, current: nat, va: nat, level: nat,
                  w: World)
    requires WorldOk(m0, last0, w0) && Sprouted(m0, w0, m1, w1, ret) && At(current, va, level) in w0.tabs
    requires At(ret, va, level) in w1.tabs && At(current, va, level) in w1.tabs && w.tabs == w1.tabs
    requires var e := Load(m1, w1.tabs[At(current, va, level)] + 8 * Index(va, level));
      w == if Present(e) then w1.(foreign := w1.foreign + {At(ret, va, level + 1)}) else w1
    ensures var e := Load(m1, w1.tabs[At(current, va, level)] + 8 * Index(va, level));
      CopiedAt(m0, w0, current, m1[w1.tabs[At(ret, va, level)] + 8 * Index(va, level) := e], w, ret, va, level)
  {
    hide At, Index, Present, WorldOk, Sprouted;
    IndexSmall(va, level);
    OldWord(m0, last0, w0, m1, w1, ret, At(current, va, level), Index(va, level));
  }

  lemma RegionalLevel(ret: nat, a: nat, n: nat)
    requires Regional(a, n)
    ensures n < 3 && (n == 2 || (n == 0 && Index(a, 0) == 384))
  {}

  lemma AtDown(root: nat, va: nat, level: nat)
    ensures At(root, va, level + 1) == Down(At(root, va, level), Index(va, level)) && Index(va, level) < 512
  {
    hide Index;
  }

  lemma TabsFine(m: Memory, last: nat, w: World)
    requires WorldOk(m, last, w)
    ensures TabsOk(w)
  {}

  /** What was copied before stays copied, except where q is. */
  ghost predicate StillCopied(m0: Memory, w0: World, current: nat, m1: Memory, w1: World, m: Memory, w: World,
                              ret: nat, q: Pos)
  {
    forall a: nat, n: nat {:trigger CopiedAt(m0, w0, current, m, w, ret, a, n)} ::
      CopiedAt(m0, w0, current, m1, w1, ret, a, n) && Regional(a, n) && At(ret, a, n + 1) != q ==>
      CopiedAt(m0, w0, current, m, w, ret, a, n)
  }

  /** All that was copied so far stays while an entry is copied. */
  lemma CopiedStill(m0: Memory, last0: nat, w0: World, current: nat, m1: Memory, w1: World, m2: Memory, last2: nat,
                    w2: World, w: World, ret: nat, va: nat, level: nat, e: nat, a: nat, n: nat)
    requires WorldOk(m0, last0, w0) && Sprouted(m0, w0, m2, w2, ret) && WorldOk(m2, last2, w2)
    requires TablesBuilt(m1, w1, m2, w2) && w1.foreign <= w2.foreign && w2.foreign <= w.foreign && w.tabs == w2.tabs
    requires At(ret, va, level) in w2.tabs && Regional(a, n) && At(ret, a, n + 1) != At(ret, va, level + 1)
    requires CopiedAt(m0, w0, current, m1, w1, ret, a, n)
    ensures CopiedAt(m0, w0, current, m2[w2.tabs[At(ret, va, level)] + 8 * Index(va, level) := e], w, ret, a, n)
  {
    hide *;
    RegionalLevel(ret, a, n);
    NotYet(m0, last0, w0, m2, w2, ret, a, n);
    AtDown(ret, va, level);
    TabsFine(m2, last2, w2);
    CopiedBuilt(m0, w0, current, m1, w1, m2, w2, ret, a, n);
    CopiedWrite(m0, w0, current, m2, w2, m2[w2.tabs[At(ret, va, level)] + 8 * Index(va, level) := e], w, ret, a, n,
                At(ret, va, level), Index(va, level), e);
  }

  lemma AllStillCopied(m0: Memory, last0: nat, w0: World, current: nat, m1: Memory, w1: World, m2: Memory, last2: nat,
                       w2: World, m: Memory, w: World, ret: nat, va: nat, level: nat, e: nat)
    requires WorldOk(m0, last0, w0) && Sprouted(m0, w0, m2, w2, ret) && WorldOk(m2, last2, w2)
    requires TablesBuilt(m1, w1, m2, w2) && Grown(w1, w2, ret, va) && w2.foreign <= w.foreign && w.tabs == w2.tabs
    requires At(ret, va, level) in w2.tabs && m == m2[w2.tabs[At(ret, va, level)] + 8 * Index(va, level) := e]
    ensures StillCopied(m0, w0, current, m1, w1, m, w, ret, At(ret, va, level + 1))
  {
    hide WorldOk, Sprouted, TablesBuilt, Grown, At, Index, CopiedAt, Regional;
    forall a: nat, n: nat | CopiedAt(m0, w0, current, m1, w1, ret, a, n) && Regional(a, n)
      && At(ret, a, n + 1) != At(ret, va, level + 1)
      ensures CopiedAt(m0, w0, current, m, w, ret, a, n)
    {
      hide *;
      GrownForeign(w1, w2, ret, va);
      CopiedStill(m0, last0, w0, current, m1, w1, m2, last2, w2, w, ret, va, level, e, a, n);
    }
  }

  /** The regions in turn. */
  function RegionBase(k: nat): nat {
    if k == 0 then WINDOW_BASE else if k == 1 then TASK_BASE else if k == 2 then DESC_BASE
    else if k == 3 then KMEM_BASE_ADDR else STATUS_BASE
  }

  /** What was copied for the regions before stays while the next one is. */
  lemma CopiedOn(m0: Memory, w0: World, current: nat, m1: Memory, w1: World, m: Memory, w: World, ret: nat, k: nat)
    requires 1 <= k <= 4
    requires StillCopied(m0, w0, current, m1, w1, m, w, ret, At(ret, RegionBase(k), 3))
    ensures CopiedAt(m0, w0, current, m1, w1, ret, WINDOW_BASE, 0) ==>
      CopiedAt(m0, w0, current, m, w, ret, WINDOW_BASE, 0)
    ensures k > 1 && CopiedAt(m0, w0, current, m1, w1, ret, TASK_BASE, 2) ==>
      CopiedAt(m0, w0, current, m, w, ret, TASK_BASE, 2)
    ensures k > 2 && CopiedAt(m0, w0, current, m1, w1, ret, DESC_BASE, 2) ==>
      CopiedAt(m0, w0, current, m, w, ret, DESC_BASE, 2)
    ensures k > 3 && CopiedAt(m0, w0, current, m1, w1, ret, KMEM_BASE_ADDR, 2) ==>
      CopiedAt(m0, w0, current, m, w, ret, KMEM_BASE_ADDR, 2)
  {
    KernelPaths(ret);
    WaysClear(ret);
    hide At, Index, CopiedAt, Regional, WayClear, Shares;
  }

  lemma OpenBegun(m0: Memory, last0: nat, w0: World, m: Memory, ret: nat)
    requires WorldOk(m0, last0, w0) && ret in w0.free
    ensures OpenRoot(m, AddTable(Popped(w0), Pos(ret, []), ret), ret)
  {
    RootsOnly(m0, last0, w0, ret);
  }

  lemma OpenShared(m0: Memory, last0: nat, w0: World, m1: Memory, w1: World, m2: Memory, last2: nat, w2: World,
                   m: Memory, w: World, ret: nat, va: nat, level: nat, e: nat)
    requires WorldOk(m0, last0, w0) && Sprouted(m0, w0, m2, w2, ret) && WorldOk(m2, last2, w2) && Regional(va, level)
    requires OpenRoot(m1, w1, ret) && TablesBuilt(m1, w1, m2, w2) && At(ret, va, level) in w2.tabs && w.tabs == w2.tabs
    requires m == m2[w2.tabs[At(ret, va, level)] + 8 * Index(va, level) := e]
    ensures OpenRoot(m, w, ret)
  {
    hide *;
    RegionalLevel(ret, va, level);
    NotYet(m0, last0, w0, m2, w2, ret, va, level);
    AtDown(ret, va, level);
    TabsFine(m2, last2, w2);
    OpenBuilt(m1, w1, m2, w2, ret);
    OpenWrite(m2, w2, m, w, At(ret, va, level), Index(va, level), e, ret);
  }

  // ----- what the walk finds in the kernel's regions

  /** The walks for an address get to a level under both roots, and find the same word there. */
  ghost predicate SameWord(m0: Memory, root0: nat, m: Memory, root: nat, va: nat, level: nat) {
    && PagingAddr(m0, root0, va, level).Some? && PagingAddr(m, root, va, level).Some?
    && Load(m, PagingAddr(m, root, va, level).value) == Load(m0, PagingAddr(m0, root0, va, level).value)
  }

  /** The window on physical memory and the regions of tasks, descriptors, memory manager and status page. */
  ghost predicate KernelWords(m0: Memory, root0: nat, m: Memory, root: nat) {
    && SameWord(m0, root0, m, root, 0xffff_c000_0000_0000, 0) && SameWord(m0, root0, m, root, 0xffff_ffff_ffe0_0000, 2)
    && SameWord(m0, root0, m, root, 0xffff_ffff_ffc0_0000, 2) && SameWord(m0, root0, m, root, 0xffff_ffff_ffa0_0000, 2)
    && SameWord(m0, root0, m, root, 0xffff_9000_0000_0000, 2)
  }

  /** Every address of the four regions is translated alike. */
  ghost predicate KernelSeen(m0: Memory, root0: nat, m: Memory, root: nat) {
    forall va: nat {:trigger Translate(m, root, va)} ::
      0xffff_9000_0000_0000 <= va < 0xffff_9000_0020_0000 || 0xffff_ffff_ffa0_0000 <= va < 0x1_0000_0000_0000_0000 ==>
      Translate(m, root, va) == Translate(m0, root0, va)
  }

  lemma CopiedSame(m0: Memory, last0: nat, w0: World, current: nat, m: Memory, last: nat, w: World, ret: nat, va: nat,
                   level: nat)
    requires WorldOk(m0, last0, w0) && WorldOk(m, last, w) && CopiedAt(m0, w0, current, m, w, ret, va, level)
    requires level <= 2
    ensures SameWord(m0, current, m, ret, va, level)
  {
    hide At, Index, Present, WorldOk, PagingAddr;
    PlaceFound(m0, last0, w0, current, va, level);
    PlaceFound(m, last, w, ret, va, level);
  }

  /** Addresses that agree in their first indices are walked alike as far as that. */
  lemma {:induction false} WalkAlike(m: Memory, root: nat, va: nat, va': nat, level: nat)
    requires forall n :: 0 <= n <= level ==> Index(va, n) == Index(va', n)
    ensures PagingAddr(m, root, va, level) == PagingAddr(m, root, va', level)
  {
    hide Index;
    if level > 0 { WalkAlike(m, root, va, va', level - 1); }
  }

  /** The addresses of a region of two megabytes. */
  lemma RegionIndex(base: nat, va: nat, n: nat)
    requires base % 0x20_0000 == 0 && base <= va < base + 0x20_0000 && n <= 2
    ensures Index(va, n) == Index(base, n)
  {
    var k := base / 0x20_0000;
    assert va / 0x20_0000 == k;
    ShiftMore(va);
    ShiftMore(base);
  }

  lemma ShiftMore(x: nat)
    ensures x / 0x4000_0000 == x / 0x20_0000 / 0x200 && x / 0x80_0000_0000 == x / 0x20_0000 / 0x4_0000
  {}

  /** Where a region hangs from the same word and its table is as it was, it is translated alike. */
  lemma RegionSame(m0: Memory, root0: nat, m: Memory, root: nat, pages: set<nat>, base: nat, va: nat)
    requires SameWord(m0, root0, m, root, base, 2) && OnlyIn(m0, m, pages)
    requires Floor(Load(m0, PagingAddr(m0, root0, base, 2).value)) !in pages
    requires base % 0x20_0000 == 0 && base <= va < base + 0x20_0000
    ensures Translate(m, root, va) == Translate(m0, root0, va)
  {
    forall n | 0 <= n <= 2 ensures Index(va, n) == Index(base, n) { RegionIndex(base, va, n); }
    WalkAlike(m0, root0, va, base, 2);
    WalkAlike(m, root, va, base, 2);
    var e := Load(m0, PagingAddr(m0, root0, base, 2).value);
    PageAligned(e);
    SlotInPage(Floor(e), Index(va, 3));
    assert !InPages(Floor(e) + 8 * Index(va, 3), pages);
    hide Index, Floor;
    assert PagingAddr(m, root, va, 3) == PagingAddr(m0, root0, va, 3);
  }

  /** What the word of a region leads to is neither a table nor unused. */
  lemma RegionAside(m: Memory, last: nat, w: World, current: nat, base: nat)
    requires WorldOk(m, last, w) && KernelAt(w, current, base)
    ensures PagingAddr(m, current, base, 2) == Some(w.tabs[At(current, base, 2)] + 8 * Index(base, 2))
    ensures var e := Load(m, PagingAddr(m, current, base, 2).value); Present(e) && Floor(e) !in Reach(w)
  {
    assert |At(current, base, 2).path| == 2;
    hide At, Index, PagingAddr, TabsOk, EntriesOk, FreeOk, EntryOk, Reach;
    assert At(current, base, 3) !in w.tabs;
    hide WorldOk;
    PlaceFound(m, last, w, current, base, 2);
    AtDown(current, base, 2);
    EntryKept(m, last, w, At(current, base, 2), Index(base, 2));
    ForeignEntry(m, w, At(current, base, 2), Index(base, 2));
  }

  lemma ForeignEntry(m: Memory, w: World, p: Pos, i: nat)
    requires p in w.tabs && EntryOk(m, w, p, i) && Down(p, i) !in w.tabs && Down(p, i) in w.foreign
    ensures Present(Word(m, w, p, i)) && Floor(Word(m, w, p, i)) !in Reach(w)
  {}

  /** Under a root that has the regions of another, they are seen alike. */
  lemma KernelAlike(m0: Memory, last0: nat, w0: World, root0: nat, m: Memory, root: nat, pages: set<nat>)
    requires WorldOk(m0, last0, w0) && OnlyIn(m0, m, pages) && pages <= Reach(w0)
    requires forall base :: base in [TASK_BASE, DESC_BASE, KMEM_BASE_ADDR, STATUS_BASE] ==>
      KernelAt(w0, root0, base) && SameWord(m0, root0, m, root, base, 2)
    ensures KernelSeen(m0, root0, m, root)
  {
    var bases := [TASK_BASE, DESC_BASE, KMEM_BASE_ADDR, STATUS_BASE];
    forall va: nat | 0xffff_9000_0000_0000 <= va < 0xffff_9000_0020_0000
      || 0xffff_ffff_ffa0_0000 <= va < 0x1_0000_0000_0000_0000
      ensures Translate(m, root, va) == Translate(m0, root0, va)
    {
      var k := if va < 0xffff_9000_0020_0000 then 3 else if va < 0xffff_ffff_ffc0_0000 then 2
               else if va < 0xffff_ffff_ffe0_0000 then 1 else 0;
      var base := bases[k];
      assert base in bases && base % 0x20_0000 == 0 && base <= va < base + 0x20_0000;
      hide *;
      RegionAside(m0, last0, w0, root0, base);
      RegionSame(m0, root0, m, root, pages, base, va);
    }
  }

  /** The new root has the regions: the words themselves, and the places by which they are shared. */
  lemma KernelCopied(m0: Memory, last0: nat, w0: World, current: nat, m: Memory, last: nat, w: World, ret: nat)
    requires WorldOk(m0, last0, w0) && WorldOk(m, last, w) && Sprouted(m0, w0, m, w, ret) && KernelOk(w0, current)
    requires CopiedAt(m0, w0, current, m, w, ret, WINDOW_BASE, 0) && Regional(WINDOW_BASE, 0)
    requires CopiedAt(m0, w0, current, m, w, ret, TASK_BASE, 2) && CopiedAt(m0, w0, current, m, w, ret, DESC_BASE, 2)
    requires CopiedAt(m0, w0, current, m, w, ret, KMEM_BASE_ADDR, 2)
    requires CopiedAt(m0, w0, current, m, w, ret, STATUS_BASE, 2)
    ensures KernelWords(m0, current, m, ret) && KernelSeen(m0, current, m, ret) && KernelOk(w, ret)
  {
    hide At, Index, WorldOk, CopiedAt, PagingAddr, Reach, SameWord, KernelSeen, Regional, Translate;
    CopiedSame(m0, last0, w0, current, m, last, w, ret, WINDOW_BASE, 0);
    forall base | base in [TASK_BASE, DESC_BASE, KMEM_BASE_ADDR, STATUS_BASE]
      ensures SameWord(m0, current, m, ret, base, 2) && KernelAt(w, ret, base)
    {
      hide *;
      CopiedSame(m0, last0, w0, current, m, last, w, ret, base, 2);
      CopiedRegion(m0, last0, w0, current, m, w, ret, base);
    }
    UnusedReach(w0);
    KernelAlike(m0, last0, w0, current, m, ret, Unused(w0));
    RegionalLevel(ret, WINDOW_BASE, 0);
    NotYet(m0, last0, w0, m, w, ret, WINDOW_BASE, 0);
    KernelPaths(ret);
  }

  lemma CopiedRegion(m0: Memory, last0: nat, w0: World, current: nat, m: Memory, w: World, ret: nat, base: nat)
    requires WorldOk(m0, last0, w0) && KernelAt(w0, current, base) && CopiedAt(m0, w0, current, m, w, ret, base, 2)
    ensures KernelAt(w, ret, base)
  {
    RegionAside(m0, last0, w0, current, base);
    hide At, Index, WorldOk, PagingAddr, Reach, Present;
  }

  /** Later loads leave the word of a region alone. */
  lemma WordStays(m0: Memory, root0: nat, m1: Memory, last1: nat, w1: World, m: Memory, last: nat, w: World, root: nat,
                  base: nat, level: nat)
    requires WorldOk(m1, last1, w1) && WorldOk(m, last, w) && TablesBuilt(m1, w1, m, w) && w.foreign == w1.foreign
    requires level <= 2 && At(root, base, level) in w1.tabs && At(root, base, level + 1) in w1.foreign
    requires SameWord(m0, root0, m1, root, base, level)
    ensures SameWord(m0, root0, m, root, base, level)
  {
    hide *;
    ForeignAside(m, last, w, At(root, base, level + 1));
    AtDown(root, base, level);
    WordBuilt(m1, w1, m, w, At(root, base, level), Index(base, level));
    PlaceFound(m1, last1, w1, root, base, level);
    PlaceFound(m, last, w, root, base, level);
    OnlySame(m0, root0, m1, m, root, base, level);
  }

  lemma WordBuilt(m1: Memory, w1: World, m: Memory, w: World, p: Pos, i: nat)
    requires TablesBuilt(m1, w1, m, w) && p in w1.tabs && |p.path| < 3 && i < 512 && Down(p, i) !in w.tabs
    ensures p in w.tabs && w.tabs[p] == w1.tabs[p] && Load(m, w.tabs[p] + 8 * i) == Load(m1, w1.tabs[p] + 8 * i)
  {
    assert Word(m, w, p, i) == Word(m1, w1, p, i);
  }

  lemma OnlySame(m0: Memory, root0: nat, m1: Memory, m: Memory, root: nat, va: nat, level: nat)
    requires SameWord(m0, root0, m1, root, va, level)
    requires PagingAddr(m, root, va, level) == PagingAddr(m1, root, va, level)
    requires Load(m, PagingAddr(m, root, va, level).value) == Load(m1, PagingAddr(m1, root, va, level).value)
    ensures SameWord(m0, root0, m, root, va, level)
  {}

  lemma ForeignAside(m: Memory, last: nat, w: World, q: Pos)
    requires WorldOk(m, last, w) && q in w.foreign
    ensures q !in w.tabs
  {}

  /** The window's word of a root stays, too, if there is one. */
  lemma WindowShared(m: Memory, last: nat, w: World, root: nat)
    requires WorldOk(m, last, w) && KernelOk(w, root) && Present(Load(m, root + 0xc00))
    ensures At(root, WINDOW_BASE, 0) in w.tabs && At(root, WINDOW_BASE, 1) in w.foreign
  {
    KernelPaths(root);
    var p := Pos(root, []);
    assert w.tabs[p] == root;
    assert Down(p, 384) == Pos(root, [384]) by { assert [] + [384] == [384]; }
    assert EntryOk(m, w, p, 384);
  }

  /** A root made from another keeps the kernel's regions while it is given pages of its own. */
  lemma KernelOn(m0: Memory, last0: nat, w0: World, current: nat, m1: Memory, last1: nat, w1: World, m: Memory,
                 last: nat, w: World, root: nat)
    requires WorldOk(m0, last0, w0) && KernelOk(w0, current) && KernelWords(m0, current, m1, root)
    requires WorldOk(m1, last1, w1) && KernelOk(w1, root) && WorldOk(m, last, w) && OnlyIn(m0, m, Reach(w0))
    requires TablesBuilt(m1, w1, m, w) && w.foreign == w1.foreign
    ensures KernelSeen(m0, current, m, root)
    ensures Load(m0, current + 0xc00) % 2 == 1 ==> Load(m, root + 0xc00) == Load(m0, current + 0xc00)
  {
    hide At, Index, WorldOk, OnlyIn, TablesBuilt, Reach, SameWord, KernelSeen, Load;
    forall base | base in [TASK_BASE, DESC_BASE, KMEM_BASE_ADDR, STATUS_BASE]
      ensures SameWord(m0, current, m, root, base, 2)
    {
      assert KernelAt(w1, root, base) && SameWord(m0, current, m1, root, base, 2);
      hide KernelOk, KernelWords;
      WordStays(m0, current, m1, last1, w1, m, last, w, root, base, 2);
    }
    KernelAlike(m0, last0, w0, current, m, root, Reach(w0));
    if Load(m0, current + 0xc00) % 2 == 1 {
      WindowWord(m0, current, m1, root);
      WindowShared(m1, last1, w1, root);
      WordStays(m0, current, m1, last1, w1, m, last, w, root, WINDOW_BASE, 0);
      WindowWord(m0, current, m, root);
    }
  }

  lemma WindowWord(m0: Memory, root0: nat, m: Memory, root: nat)
    ensures SameWord(m0, root0, m, root, WINDOW_BASE, 0) <==> Load(m, root + 0xc00) == Load(m0, root0 + 0xc00)
  {}

  lemma GrownForeign(w: World, w': World, root: nat, va: nat)
    requires Grown(w, w', root, va)
    ensures w'.foreign == w.foreign
  {
    hide Reach;
  }

  lemma OnlyMore(w0: World, w1: World, w: World, s: set<Pos>, q: Pos)
    requires SharedOnly(w0, w1, s) && (w.foreign == w1.foreign || w.foreign == w1.foreign + {q})
    ensures SharedOnly(w0, w, s + {q})
  {}

  lemma KernelStays(w0: World, w: World, ret: nat, current: nat)
    requires KernelOk(w0, current) && TabsGrown(w0, w, ret)
    ensures KernelOk(w, current) && current != ret
  {
    hide RootReach, At;
    assert Pos(current, [384]) in w.tabs ==> NewTab(w0, w, ret, Pos(current, [384]));
  }

  /** An address of the window at the top level, or of a region below it. */
  predicate Regional(va: nat, level: nat) {
    (level == 0 && Index(va, 0) == 384) || (level == 2 && Index(va, 0) != 384)
  }

  /** No place on the way is among these. */
  ghost predicate WayClear(ret: nat, va: nat, level: nat, s: set<Pos>) {
    forall n {:trigger At(ret, va, n)} :: 0 < n <= level ==> At(ret, va, n) !in s
  }

  /** The first k places of the kernel's regions. */
  ghost function Shares(ret: nat, k: nat): set<Pos> {
    if k == 0 then {}
    else if k == 1 then {Pos(ret, [384])}
    else if k == 2 then {Pos(ret, [384]), Pos(ret, [511, 511, 511])}
    else if k == 3 then {Pos(ret, [384]), Pos(ret, [511, 511, 511]), Pos(ret, [511, 511, 510])}
    else if k == 4
      then {Pos(ret, [384]), Pos(ret, [511, 511, 511]), Pos(ret, [511, 511, 510]), Pos(ret, [511, 511, 509])}
    else {Pos(ret, [384]), Pos(ret, [511, 511, 511]), Pos(ret, [511, 511, 510]), Pos(ret, [511, 511, 509]),
      Pos(ret, [288, 0, 0])}
  }

  lemma SharesNext(ret: nat)
    ensures Shares(ret, 0) == {} && Shares(ret, 1) == Shares(ret, 0) + {Pos(ret, [384])}
    ensures Shares(ret, 2) == Shares(ret, 1) + {Pos(ret, [511, 511, 511])}
    ensures Shares(ret, 3) == Shares(ret, 2) + {Pos(ret, [511, 511, 510])}
    ensures Shares(ret, 4) == Shares(ret, 3) + {Pos(ret, [511, 511, 509])}
    ensures Shares(ret, 5) == Shares(ret, 4) + {Pos(ret, [288, 0, 0])}
  {}

  /** The regions are at different places. */
  lemma WaysClear(ret: nat)
    ensures Regional(WINDOW_BASE, 0) && WayClear(ret, WINDOW_BASE, 1, Shares(ret, 0))
    ensures Regional(TASK_BASE, 2) && WayClear(ret, TASK_BASE, 3, Shares(ret, 1))
    ensures Regional(DESC_BASE, 2) && WayClear(ret, DESC_BASE, 3, Shares(ret, 2))
    ensures Regional(KMEM_BASE_ADDR, 2) && WayClear(ret, KMEM_BASE_ADDR, 3, Shares(ret, 3))
    ensures Regional(STATUS_BASE, 2) && WayClear(ret, STATUS_BASE, 3, Shares(ret, 4))
  {
    KernelPath(ret, TASK_BASE, 511, 511, 511);
    KernelPath(ret, DESC_BASE, 511, 511, 510);
    KernelPath(ret, KMEM_BASE_ADDR, 511, 511, 509);
    KernelPath(ret, STATUS_BASE, 288, 0, 0);
    hide At;
  }

  lemma OwnAlong(m0: Memory, last0: nat, w0: World, m: Memory, w: World, ret: nat, va: nat, level: nat, s: set<Pos>)
    requires WorldOk(m0, last0, w0) && Sprouted(m0, w0, m, w, ret) && SharedOnly(w0, w, s)
    requires WayClear(ret, va, level + 1, s)
    ensures OwnTo(w, ret, va, level) && At(ret, va, level + 1) !in w.foreign
  {
    hide WorldOk, OnlyIn, TabsGrown, Index;
    OwnNext(m0, last0, w0, w, ret, va, level + 1, s);
    assert At(ret, va, level + 1) !in w.foreign;
  }

  lemma NotShared(m0: Memory, last0: nat, w0: World, m: Memory, w: World, ret: nat, va: nat, level: nat, s: set<Pos>)
    requires WorldOk(m0, last0, w0) && Sprouted(m0, w0, m, w, ret) && SharedOnly(w0, w, s)
    requires WayClear(ret, va, level + 1, s)
    ensures At(ret, va, level + 1) !in w.foreign
  {
    OwnAlong(m0, last0, w0, m, w, ret, va, level, s);
    hide *;
  }

  lemma SharedSame(w0: World, w1: World, m: Memory, w: World, s: set<Pos>, m1: Memory)
    requires SharedOnly(w0, w1, s) && TargetsKept(m1, w1, m, w)
    ensures SharedOnly(w0, w, s)
  {
    hide Target;
  }

  lemma OldTab(m0: Memory, w0: World, m: Memory, w: World, ret: nat, p: Pos)
    requires Sprouted(m0, w0, m, w, ret) && p in w0.tabs
    ensures p in w.tabs
  {}

  /** The first steps towards a new root. */
  lemma RootBegun(m0: Memory, last0: nat, w0: World, m: Memory, last: nat, ret: nat)
    requires WorldOk(m0, last0, w0) && |w0.free| > 0 && ret == w0.free[0] && last == Load(m0, last0)
    requires OnlyIn(m0, m, {ret})
    requires forall j :: 0 <= j < 512 ==> Load(m, ret + 8 * j) == 0
    ensures WorldOk(m, last, AddTable(Popped(w0), Pos(ret, []), ret))
    ensures SharedOnly(w0, AddTable(Popped(w0), Pos(ret, []), ret), {})
    ensures Sprouted(m0, w0, m, AddTable(Popped(w0), Pos(ret, []), ret), ret)
  {
    hide WorldOk, Loose, OnlyIn, Load;
    PopOk(m0, last0, w0);
    TakenPage(m0, last0, w0, m);
    RootPlanted(m, last, Popped(w0), ret);
    hide Sprouted;
    SproutStart(m0, last0, w0, m, AddTable(Popped(w0), Pos(ret, []), ret), ret);
  }

  /** Where the current root has the regions. */
  lemma KernelUse(m: Memory, last: nat, w: World, current: nat)
    requires WorldOk(m, last, w) && KernelOk(w, current)
    ensures At(current, WINDOW_BASE, 0) in w.tabs && At(current, WINDOW_BASE, 1) !in w.tabs
    ensures At(current, TASK_BASE, 2) in w.tabs && At(current, TASK_BASE, 3) !in w.tabs
    ensures At(current, DESC_BASE, 2) in w.tabs && At(current, DESC_BASE, 3) !in w.tabs
    ensures At(current, KMEM_BASE_ADDR, 2) in w.tabs && At(current, KMEM_BASE_ADDR, 3) !in w.tabs
    ensures At(current, STATUS_BASE, 2) in w.tabs && At(current, STATUS_BASE, 3) !in w.tabs
  {
    KernelPaths(current);
    assert At(current, WINDOW_BASE, 0) == Pos(current, []);
    hide At, TabsOk, EntriesOk, FreeOk;
  }

  lemma KernelApart(m: Memory, last: nat, w: World, current: nat, ret: nat)
    requires WorldOk(m, last, w) && KernelOk(w, current) && ret in w.free
    ensures current != ret
  {
    hide At;
    assert w.tabs[Pos(current, [])] in w.tabs.Values;
  }

  // ----- what pages are mapped to

  lemma MapsSame(m: Memory, w: World, m': Memory, w': World, x: Pos)
    requires |x.path| == 4 && (Up(x) in w'.tabs <==> Up(x) in w.tabs)
    requires Up(x) in w.tabs ==> Load(m', w'.tabs[Up(x)] + 8 * Last(x)) == Load(m, w.tabs[Up(x)] + 8 * Last(x))
    ensures Mapped(m', w', x) == Mapped(m, w, x)
  {
    hide Load, Present;
  }

  /** Making a root changes no mapping of another. */
  lemma SproutMaps(m0: Memory, last0: nat, w0: World, m: Memory, w: World, ret: nat, x: Pos)
    requires WorldOk(m0, last0, w0) && Sprouted(m0, w0, m, w, ret) && EntryPos(x) && x.root != ret
    ensures Mapped(m, w, x) == Mapped(m0, w0, x)
  {
    hide *;
    if |x.path| == 4 {
      PlaceParts(x);
      OtherTabs(m0, w0, m, w, ret, Up(x));
      if Up(x) in w0.tabs { OldWord(m0, last0, w0, m, w, ret, Up(x), Last(x)); }
      MapsSame(m0, w0, m, w, x);
    } else {
      NoMap(m0, w0, x);
      NoMap(m, w, x);
    }
  }

  lemma PlaceParts(x: Pos)
    requires EntryPos(x) && |x.path| == 4
    ensures Last(x) < 512 && Up(x).root == x.root
  {}

  lemma NoMap(m: Memory, w: World, x: Pos)
    requires |x.path| != 4
    ensures Mapped(m, w, x) == None
  {}

  lemma OtherTabs(m0: Memory, w0: World, m: Memory, w: World, ret: nat, p: Pos)
    requires Sprouted(m0, w0, m, w, ret) && p.root != ret
    ensures p in w.tabs <==> p in w0.tabs
  {
    hide RootReach, OnlyIn, CopiedPlace;
    assert p in w.tabs && p !in w0.tabs ==> NewTab(w0, w, ret, p);
  }

  /** Nor does taking one down. */
  lemma CutMaps(m: Memory, last: nat, w: World, roots: map<nat, nat>, ids: seq<nat>, id: nat, m': Memory,
                free': seq<nat>, x: Pos)
    requires Structured(m, last, w, roots) && Named(roots, ids) && id in roots && EntryPos(x) && x.root != roots[id]
    requires Standing(m, m', free', Total(m, roots - {id}, Without(ids, id)))
    ensures Mapped(m', Cut(w, roots[id], free'), x) == Mapped(m, w, x)
  {
    hide Structured, Standing, Named, Cut, Total, Planted, Visits, WordsSame;
    if |x.path| == 4 {
      assert Last(x) < 512 && Up(x).root == x.root;
      hide Mapped;
      CutTab(w, roots[id], free', Up(x));
      if Up(x) in w.tabs { CutWord(m, last, w, roots, ids, id, m', free', Up(x), Last(x)); }
      MapsSame(m, w, m', Cut(w, roots[id], free'), x);
    }
  }

  lemma CutTab(w: World, root: nat, free: seq<nat>, p: Pos)
    requires p.root != root
    ensures p in Cut(w, root, free).tabs <==> p in w.tabs
    ensures p in w.tabs ==> Cut(w, root, free).tabs[p] == w.tabs[p]
  {}

  lemma CutWord(m: Memory, last: nat, w: World, roots: map<nat, nat>, ids: seq<nat>, id: nat, m': Memory,
                free': seq<nat>, p: Pos, i: nat)
    requires Structured(m, last, w, roots) && Named(roots, ids) && id in roots && p in w.tabs && p.root != roots[id]
    requires i < 512
    requires Standing(m, m', free', Total(m, roots - {id}, Without(ids, id)))
    ensures Load(m', w.tabs[p] + 8 * i) == Load(m, w.tabs[p] + 8 * i)
  {
    hide Structured, Total, WordsSame, Load, Named;
    TabLeft(m, last, w, roots, ids, id, p);
    assert WordsSame(m, m', w.tabs[p]);
    SameEntry(m, m', w.tabs[p], i);
  }

  lemma WholeNamed(f: Frame, s: Snap)
    requires Whole(f, s)
    ensures Named(f.roots, f.ids)
  {
    hide Structured, WindowsApart, Even;
  }

  lemma RootNonzero(m: Memory, last: nat, w: World, ret: nat)
    requires WorldOk(m, last, w) && ret in w.free
    ensures ret != 0 && IsPage(ret)
  {}

  lemma KernelStaysOn(m0: Memory, w0: World, m: Memory, w: World, ret: nat, current: nat)
    requires KernelOk(w0, current) && Sprouted(m0, w0, m, w, ret)
    ensures KernelOk(w, current)
  {
    hide KernelOk, TabsGrown;
    KernelStays(w0, w, ret, current);
  }

  // ----- at the start

  ghost function NoRoots(free: seq<nat>): Frame {
    Frame(map[], [], map[], Unused(World(map[], {}, free)))
  }

  ghost function NothingYet(m: Memory, last: nat, free: seq<nat>): Snap {
    Snap(m, last, World(map[], {}, free), map[], multiset{})
  }

  lemma NothingIs(m: Memory, last: nat, free: seq<nat>)
    ensures NothingYet(m, last, free) == Snap(m, last, World(map[], {}, free), map[], multiset{})
  {}

  lemma EmptyWhole(m: Memory, last: nat, free: seq<nat>)
    requires Listed(m, last, free)
    ensures Whole(NoRoots(free), NothingYet(m, last, free))
  {
    hide Structured, Even, Listed, WindowsApart, Unused;
    EmptyEven(m, last, free);
    EmptyWorld(m, last, free);
    var none: multiset<nat> := multiset{};
    assert none + none == none;
  }

  lemma EmptyEven(m: Memory, last: nat, free: seq<nat>)
    requires Listed(m, last, free)
    ensures Even(map[], map[], multiset{}, free, Unused(World(map[], {}, free)))
  {
    hide Chained;
    forall p: nat ensures multiset(free)[p] == if p in free then 1 else 0 { DistinctOnce(free, p); }
  }

  lemma EmptyWorld(m: Memory, last: nat, free: seq<nat>)
    requires Listed(m, last, free)
    ensures Structured(m, last, World(map[], {}, free), map[]) && WindowsApart(m, World(map[], {}, free), multiset{})
  {
    hide Listed;
    assert FreeOk(m, last, World(map[], {}, free));
  }

  lemma FrameIs(f: Frame, m: Memory, cr3: nat, id: nat)
    ensures Import(f, m, cr3, id) == Frame(f.roots[id := cr3], f.ids + [id], f.base, f.pool + Visited(m, cr3))
  {}

  /** Whether a root may be imported does not depend on the counts. */
  lemma ImportableSame(f: Frame, s: Snap, s': Snap, w1: World, cr3: nat)
    requires Importable(f, s, w1, cr3) && s'.mem == s.mem && s'.last == s.last && s'.w.free == s.w.free
    ensures Importable(f, s', w1, cr3)
  {
    hide RootVisits, Total, WorldOk, Sealed, WindowsApart;
  }

  lemma BothCounted(c1: map<nat, nat>, c: map<nat, nat>, s: multiset<nat>, t: multiset<nat>)
    requires CountsMore(map[], c1, s) && CountsMore(c1, c, t)
    ensures forall p: nat :: Count(c, p) == s[p] + t[p]
  {
    forall p: nat ensures Count(c, p) == s[p] + t[p] {
      CountAt(map[], c1, s, p);
      CountAt(c1, c, t, p);
    }
  }

  /**
   * Every page is counted as often as the live roots lead to it, whatever they share, over and above base and what
   * was lost; the pages under management that are not counted are on the list.
   */
  ghost predicate OwingAt(f: Frame, s: Snap, refs: map<nat, nat>, nextId: nat) {
    && Named(f.roots, f.ids) && IdsFine(f.ids, nextId, refs, f.roots)
    && (forall id :: id in f.roots ==> IsPage(f.roots[id]))
    && Even(f.base, s.counts, s.lost + Total(s.mem, f.roots, f.ids), s.w.free, f.pool)
    && Listed(s.mem, s.last, s.w.free)
  }

  lemma ImportedOwing(f: Frame, s: Snap, w1: World, c: map<nat, nat>, refs: map<nat, nat>, cr3: nat, id: nat)
    requires OwingAt(f, s, refs, id) && Fresh(s.mem, s.w.free, cr3) && w1.free == s.w.free
    requires CountsMore(s.counts, c, RootVisits(s.mem, cr3))
    ensures OwingAt(Import(f, s.mem, cr3, id), Snap(s.mem, s.last, w1, c, s.lost), refs, id + 1)
  {
    hide Named, IdsFine, Even, Total, Listed, Fresh, CountsMore, RootVisits;
    FreshRoot(s.mem, s.w.free, cr3);
    IdsMore(f.ids, id, refs, f.roots, cr3);
    ImportedEven(f, s, c, cr3, id);
  }
}
