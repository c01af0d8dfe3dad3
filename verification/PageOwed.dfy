/**
 * How what the live roots owe changes when one entry of a table is written. The tables of the world are met once
 * each; shared tables are met wherever an entry leads to them, and are not written.
 */
module PageOwed {
  import opened Basics
  import opened Words
  import opened PageTables
  import opened PageWorld
  import opened PageRange
  import opened PageVisits

  // ----- shared tables

  /** None of the tables met below a table, from entry i on, is one of the pages. */
  ghost predicate Avoids(m: Memory, table: nat, level: nat, i: nat, pages: set<nat>)
    decreases 4 - level, 512 - i
  {
    level > 3 || i >= 512 || (EntryAvoids(m, table, level, i, pages) && Avoids(m, table, level, i + 1, pages))
  }

  ghost predicate EntryAvoids(m: Memory, table: nat, level: nat, i: nat, pages: set<nat>)
    requires level <= 3 && i < 512
    decreases 4 - level, 512 - i, 0
  {
    var e := Load(m, table + 8 * i);
    Skipped(level, i) || !Present(e) || level == 3 || (PageOf(e) !in pages && Avoids(m, PageOf(e), level + 1, 0, pages))
  }

  lemma AvoidsNext(m: Memory, table: nat, level: nat, i: nat, pages: set<nat>)
    requires level <= 3 && i < 512
    ensures Avoids(m, table, level, i, pages) <==>
      && EntryAvoids(m, table, level, i, pages) && Avoids(m, table, level, i + 1, pages)
  {}

  lemma AvoidsEntry(m: Memory, table: nat, level: nat, i: nat, pages: set<nat>)
    requires level <= 3 && i < 512
    ensures var e := Load(m, table + 8 * i);
      EntryAvoids(m, table, level, i, pages) <==>
        Skipped(level, i) || !Present(e) || level == 3
          || (PageOf(e) !in pages && Avoids(m, PageOf(e), level + 1, 0, pages))
  {}

  /** Writes to the pages avoided change nothing of what is met. */
  lemma {:induction false} AvoidsSame(m: Memory, m': Memory, table: nat, level: nat, i: nat, pages: set<nat>)
    requires Avoids(m, table, level, i, pages) && table !in pages && table % PAGE == 0 && OnlyIn(m, m', pages)
    ensures Visits(m', table, level, i) == Visits(m, table, level, i) && Avoids(m', table, level, i, pages)
    decreases 4 - level, 512 - i
  {
    if level <= 3 && i < 512 {
      SlotInPage(table, i);
      assert Load(m', table + 8 * i) == Load(m, table + 8 * i);
      VisitsNext(m, table, level, i);
      VisitsNext(m', table, level, i);
      AvoidsNext(m, table, level, i, pages);
      AvoidsNext(m', table, level, i, pages);
      hide *;
      AvoidsSame(m, m', table, level, i + 1, pages);
      EntryAvoidsSame(m, m', table, level, i, pages);
    }
  }

  lemma {:induction false} EntryAvoidsSame(m: Memory, m': Memory, table: nat, level: nat, i: nat, pages: set<nat>)
    requires level <= 3 && i < 512 && Load(m', table + 8 * i) == Load(m, table + 8 * i)
    requires EntryAvoids(m, table, level, i, pages) && OnlyIn(m, m', pages)
    ensures EntryVisits(m', table, level, i) == EntryVisits(m, table, level, i)
    ensures EntryAvoids(m', table, level, i, pages)
    decreases 4 - level, 512 - i, 0
  {
    hide *;
    EntryGone(m, table, level, i);
    EntryGone(m', table, level, i);
    AvoidsEntry(m, table, level, i, pages);
    AvoidsEntry(m', table, level, i, pages);
    var e := Load(m, table + 8 * i);
    VisitsEnd(m, PageOf(e), level + 1);
    VisitsEnd(m', PageOf(e), level + 1);
    PageAligned(e);
    PageMultiple(PageOf(e));
    if !Skipped(level, i) && Present(e) && level < 3 { AvoidsSame(m, m', PageOf(e), level + 1, 0, pages); }
  }

  lemma PageMultiple(p: nat)
    requires IsPage(p)
    ensures p % PAGE == 0
  {}

  lemma {:induction false} AvoidsFewer(m: Memory, table: nat, level: nat, i: nat, pages: set<nat>, fewer: set<nat>)
    requires Avoids(m, table, level, i, pages) && fewer <= pages
    ensures Avoids(m, table, level, i, fewer)
    decreases 4 - level, 512 - i
  {
    if level <= 3 && i < 512 {
      AvoidsNext(m, table, level, i, pages);
      AvoidsNext(m, table, level, i, fewer);
      AvoidsEntry(m, table, level, i, pages);
      AvoidsEntry(m, table, level, i, fewer);
      hide *;
      AvoidsFewer(m, table, level, i + 1, pages, fewer);
      var e := Load(m, table + 8 * i);
      if !Skipped(level, i) && Present(e) && level < 3 { AvoidsFewer(m, PageOf(e), level + 1, 0, pages, fewer); }
    }
  }

  /** A page that is not met at all may join the pages avoided. */
  lemma {:induction false} AvoidsMore(m: Memory, table: nat, level: nat, i: nat, pages: set<nat>, page: nat)
    requires Avoids(m, table, level, i, pages) && page !in Visits(m, table, level, i)
    ensures Avoids(m, table, level, i, pages + {page})
    decreases 4 - level, 512 - i
  {
    if level <= 3 && i < 512 {
      hide *;
      VisitsNext(m, table, level, i);
      AvoidsNext(m, table, level, i, pages);
      AvoidsNext(m, table, level, i, pages + {page});
      AvoidsMore(m, table, level, i + 1, pages, page);
      EntryAvoidsMore(m, table, level, i, pages, page);
    }
  }

  lemma {:induction false} EntryAvoidsMore(m: Memory, table: nat, level: nat, i: nat, pages: set<nat>, page: nat)
    requires level <= 3 && i < 512 && EntryAvoids(m, table, level, i, pages) && page !in EntryVisits(m, table, level, i)
    ensures EntryAvoids(m, table, level, i, pages + {page})
    decreases 4 - level, 512 - i, 0
  {
    hide *;
    EntryGone(m, table, level, i);
    AvoidsEntry(m, table, level, i, pages);
    AvoidsEntry(m, table, level, i, pages + {page});
    var e := Load(m, table + 8 * i);
    if !Skipped(level, i) && Present(e) && level < 3 { AvoidsMore(m, PageOf(e), level + 1, 0, pages, page); }
  }

  // ----- the world and the live roots

  /** The window on physical memory, which is not counted. */
  predicate Window(q: Pos) {
    q.path == [384]
  }

  /** The table a place leads to. */
  ghost function Target(m: Memory, w: World, q: Pos): nat
    requires |q.path| > 0 && Up(q) in w.tabs
  {
    Floor(Word(m, w, Up(q), Last(q)))
  }

  /** No shared table, and no table below one, is a table of the world or an unused page. */
  ghost predicate Sealed(m: Memory, w: World) {
    forall q {:trigger q in w.foreign} :: q in w.foreign && !Window(q) ==>
      |q.path| > 0 && Up(q) in w.tabs && Avoids(m, Target(m, w, q), |q.path|, 0, Reach(w))
  }

  /** The tables of the world hang from the live roots, each under one of them; the window is shared. */
  ghost predicate Planted(w: World, roots: map<nat, nat>) {
    && (forall id :: id in roots ==> Pos(roots[id], []) in w.tabs)
    && (forall id, id' :: id in roots && id' in roots && roots[id] == roots[id'] ==> id == id')
    && (forall p :: p in w.tabs ==> p.root in roots.Values && (|p.path| > 0 ==> p.path[0] != 384))
  }

  ghost predicate Structured(m: Memory, last: nat, w: World, roots: map<nat, nat>) {
    WorldOk(m, last, w) && Sealed(m, w) && Planted(w, roots)
  }

  /** No window table is owed. */
  ghost predicate WindowsApart(m: Memory, w: World, s: multiset<nat>) {
    forall q {:trigger q in w.foreign} :: q in w.foreign && Window(q) && Up(q) in w.tabs ==> Target(m, w, q) !in s
  }

  // ----- one entry written

  /** Index n on the way to entry i of the table at p. */
  function DigitOf(p: Pos, i: nat, n: nat): nat
    requires n <= |p.path|
  {
    if n < |p.path| then p.path[n] else i
  }

  /** Entry i of the table at q lies at or below entry j of the table at p. */
  predicate Through(p: Pos, j: nat, q: Pos, i: nat) {
    p.root == q.root && |p.path| <= |q.path| && p.path == q.path[..|p.path|] && DigitOf(q, i, |p.path|) == j
  }

  /** Entry i of the table at q lies at or below one of the entries j and up of the table at p. */
  predicate Under(p: Pos, j: nat, q: Pos, i: nat) {
    p.root == q.root && |p.path| <= |q.path| && p.path == q.path[..|p.path|] && DigitOf(q, i, |p.path|) >= j
  }

  lemma UnderNext(p: Pos, j: nat, q: Pos, i: nat)
    ensures Under(p, j, q, i) <==> Through(p, j, q, i) || Under(p, j + 1, q, i)
    ensures !(Through(p, j, q, i) && Under(p, j + 1, q, i))
  {}

  /** Below entry j is below the table there. */
  lemma ThroughDown(p: Pos, j: nat, q: Pos, i: nat)
    ensures |p.path| < |q.path| ==> (Through(p, j, q, i) <==> Under(Down(p, j), 0, q, i))
    ensures |p.path| == |q.path| ==> (Through(p, j, q, i) <==> p == q && j == i)
    ensures |p.path| >= |q.path| ==> !Under(Down(p, j), 0, q, i)
    ensures |p.path| > |q.path| ==> !Through(p, j, q, i)
  {
    DownUp(p, j);
    if |p.path| < |q.path| {
      assert q.path[..|p.path| + 1] == q.path[..|p.path|] + [q.path[|p.path|]];
    }
    if |p.path| == |q.path| { assert q.path[..|p.path|] == q.path; }
  }

  lemma {:induction false} PrefixIn(w: World, p: Pos, q: Pos)
    requires TabsOk(w) && q in w.tabs && p.root == q.root && |p.path| <= |q.path| && p.path == q.path[..|p.path|]
    ensures p in w.tabs
    decreases |q.path|
  {
    if |p.path| < |q.path| {
      assert Up(q) in w.tabs;
      assert q.path[..|q.path| - 1][..|p.path|] == q.path[..|p.path|];
      PrefixIn(w, p, Up(q));
    } else {
      assert q.path[..|p.path|] == q.path;
    }
  }

  /** What one written entry needs for what follows: an entry of a page, or one that led nowhere. */
  ghost predicate Written(m: Memory, last: nat, w: World, m': Memory, q: Pos, i: nat) {
    && WorldOk(m, last, w) && Sealed(m, w) && (forall p :: p in w.tabs && |p.path| > 0 ==> p.path[0] != 384)
    && OnlyIn(m, m', Reach(w)) && WordsBut(m, m', w, q, i)
    && q in w.tabs && i < 512 && Down(q, i) !in w.tabs && Down(q, i) !in w.foreign && DigitOf(q, i, 0) != 384
  }

  /** If the entry lies on the way, what it contributed is exchanged. */
  ghost predicate Exchanged(a: multiset<nat>, a': multiset<nat>, on: bool, d: multiset<nat>, d': multiset<nat>) {
    if on then a' + d == a + d' else a' == a
  }

  lemma ExchangedSum(a: multiset<nat>, a': multiset<nat>, b: multiset<nat>, b': multiset<nat>, on: bool, also: bool,
                     d: multiset<nat>, d': multiset<nat>)
    requires Exchanged(a, a', on, d, d') && Exchanged(b, b', also, d, d') && !(on && also)
    ensures Exchanged(a + b, a' + b', on || also, d, d')
  {
    assert (a' + b') + d == (a' + d) + b' && (a' + b') + d == a' + (b' + d);
    assert (a + d') + b == (a + b) + d' && a + (b + d') == (a + b) + d';
  }

  /** Indices are below 512. */
  lemma UnderEnd(w: World, p: Pos, q: Pos, i: nat)
    requires TabsOk(w) && q in w.tabs && i < 512
    ensures !Under(p, 512, q, i)
  {
    if |p.path| < |q.path| && p.root == q.root && p.path == q.path[..|p.path|] {
      var r := Pos(q.root, q.path[..|p.path| + 1]);
      assert r.path == q.path[..|r.path|];
      PrefixIn(w, r, q);
      assert Last(r) == q.path[|p.path|] && Up(r) in w.tabs;
    }
  }

  lemma WrittenParts(m: Memory, last: nat, w: World, m': Memory, q: Pos, i: nat, p: Pos, j: nat)
    requires Written(m, last, w, m', q, i) && p in w.tabs && j < 512
    ensures TabsOk(w) && ForeignOk(w) && q in w.tabs && i < 512 && w.tabs[p] % PAGE == 0 && |p.path| <= 3
    ensures |q.path| <= 3
    ensures p != q || j != i ==> Load(m', w.tabs[p] + 8 * j) == Load(m, w.tabs[p] + 8 * j)
    ensures |p.path| < 3 ==> EntryOk(m, w, p, j)
    ensures Down(q, i) !in w.tabs && Down(q, i) !in w.foreign
  {
    WrittenTabs(m, last, w, m', q, i);
    hide *;
    TablePlace(m, last, w, p, j);
    TablePlace(m, last, w, q, 0);
    if p != q || j != i { WrittenWord(m, m', w, q, i, p, j); }
  }

  lemma WrittenTabs(m: Memory, last: nat, w: World, m': Memory, q: Pos, i: nat)
    requires Written(m, last, w, m', q, i)
    ensures WorldOk(m, last, w) && TabsOk(w) && ForeignOk(w) && q in w.tabs && i < 512 && WordsBut(m, m', w, q, i)
    ensures Down(q, i) !in w.tabs && Down(q, i) !in w.foreign
  {
    hide TabsOk, ForeignOk, EntriesOk, FreeOk, Sealed, OnlyIn, WordsBut;
  }

  lemma TablePlace(m: Memory, last: nat, w: World, p: Pos, j: nat)
    requires WorldOk(m, last, w) && p in w.tabs && j < 512
    ensures w.tabs[p] % PAGE == 0 && |p.path| <= 3 && (|p.path| < 3 ==> EntryOk(m, w, p, j))
  {
    hide FreeOk, ForeignOk, EntryOk;
  }

  lemma WrittenWord(m: Memory, m': Memory, w: World, q: Pos, i: nat, p: Pos, j: nat)
    requires WordsBut(m, m', w, q, i) && p in w.tabs && j < 512 && (p != q || j != i)
    ensures Load(m', w.tabs[p] + 8 * j) == Load(m, w.tabs[p] + 8 * j)
  {
    assert Word(m', w, p, j) == Word(m, w, p, j);
  }

  /** The entry does not lie below a place that is no table of the world. */
  lemma NotThrough(w: World, p: Pos, j: nat, q: Pos, i: nat)
    requires TabsOk(w) && q in w.tabs && Down(p, j) !in w.tabs && (p != q || j != i)
    ensures !Through(p, j, q, i)
  {
    ThroughDown(p, j, q, i);
    if Through(p, j, q, i) {
      DownUp(p, j);
      PrefixIn(w, Down(p, j), q);
    }
  }

  /** What an entry contributes. */
  ghost function Below(m: Memory, e: nat, level: nat): multiset<nat> {
    if Present(e) then Visits(m, PageOf(e), level + 1, 0) + multiset{PageOf(e)} else multiset{}
  }

  lemma EntryBelow(m: Memory, table: nat, level: nat, i: nat)
    requires level <= 3 && i < 512
    ensures EntryVisits(m, table, level, i) == if Skipped(level, i) then multiset{}
      else Below(m, Load(m, table + 8 * i), level)
  {
    EntryGone(m, table, level, i);
  }

  /** An entry that leads to a table of the world. */
  lemma TableEntry(m: Memory, w: World, p: Pos, j: nat)
    requires p in w.tabs && |p.path| < 3 && j < 512 && EntryOk(m, w, p, j)
    ensures var e := Load(m, w.tabs[p] + 8 * j);
      && (Down(p, j) in w.tabs ==> Present(e) && PageOf(e) == w.tabs[Down(p, j)])
      && (Down(p, j) in w.foreign && Down(p, j) !in w.tabs ==> Present(e) && PageOf(e) == Floor(e))
      && (Down(p, j) !in w.foreign && Down(p, j) !in w.tabs ==> !Present(e))
  {
    if Present(Load(m, w.tabs[p] + 8 * j)) && Load(m, w.tabs[p] + 8 * j) < NX { SameMask(Load(m, w.tabs[p] + 8 * j)); }
    hide Floor, PageOf;
  }

  /** A shared table below an entry of the world, seen before and after. */
  lemma SharedEntry(m: Memory, last: nat, w: World, m': Memory, p: Pos, j: nat)
    requires WorldOk(m, last, w) && Sealed(m, w) && OnlyIn(m, m', Reach(w))
    requires p in w.tabs && |p.path| < 3 && j < 512 && Down(p, j) in w.foreign && !Window(Down(p, j))
    ensures var t := Floor(Load(m, w.tabs[p] + 8 * j));
      && Visits(m', t, |p.path| + 1, 0) == Visits(m, t, |p.path| + 1, 0) && Avoids(m', t, |p.path| + 1, 0, Reach(w))
      && t !in Reach(w)
  {
    DownUp(p, j);
    assert EntryOk(m, w, p, j);
    var t := Floor(Load(m, w.tabs[p] + 8 * j));
    assert t == Target(m, w, Down(p, j));
    PageAligned(Load(m, w.tabs[p] + 8 * j));
    hide WorldOk, Floor, Load, Visits, Avoids;
    AvoidsSame(m, m', t, |p.path| + 1, 0, Reach(w));
  }

  lemma {:induction false} EntryWrite(m: Memory, last: nat, w: World, m': Memory, q: Pos, i: nat, p: Pos, j: nat)
    requires Written(m, last, w, m', q, i) && p in w.tabs && |p.path| <= 3 && j < 512
    ensures |q.path| <= 3
    ensures Exchanged(EntryVisits(m, w.tabs[p], |p.path|, j), EntryVisits(m', w.tabs[p], |p.path|, j),
      Through(p, j, q, i), EntryVisits(m, w.tabs[q], |q.path|, i), EntryVisits(m', w.tabs[q], |q.path|, i))
    decreases 4 - |p.path|, 512 - j, 0
  {
    hide *;
    WrittenParts(m, last, w, m', q, i, p, j);
    ThroughDown(p, j, q, i);
    var d, d' := EntryVisits(m, w.tabs[q], |q.path|, i), EntryVisits(m', w.tabs[q], |q.path|, i);
    if p == q && j == i {
      ExchangedSelf(d, d');
    } else if Down(p, j) in w.tabs && |p.path| < 3 && !Skipped(|p.path|, j) {
      NotAbove(w, p, j, q);
      EntryDown(m, w, m, p, j);
      EntryDown(m, w, m', p, j);
      VisitsWrite(m, last, w, m', q, i, Down(p, j), 0);
      ExchangedNone(multiset{w.tabs[Down(p, j)]}, d, d');
      ExchangedSum(Visits(m, w.tabs[Down(p, j)], |p.path| + 1, 0), Visits(m', w.tabs[Down(p, j)], |p.path| + 1, 0),
        multiset{w.tabs[Down(p, j)]}, multiset{w.tabs[Down(p, j)]}, Through(p, j, q, i), false, d, d');
    } else {
      EntryAlone(m, last, w, m', q, i, p, j);
      ExchangedNone(EntryVisits(m, w.tabs[p], |p.path|, j), d, d');
    }
  }

  lemma ExchangedSelf(d: multiset<nat>, d': multiset<nat>)
    ensures Exchanged(d, d', true, d, d')
  {}

  lemma ExchangedNone(a: multiset<nat>, d: multiset<nat>, d': multiset<nat>)
    ensures Exchanged(a, a, false, d, d')
  {}

  /** What an entry contributes that leads to a table of the world. */
  lemma EntryDown(m: Memory, w: World, m': Memory, p: Pos, j: nat)
    requires p in w.tabs && |p.path| < 3 && j < 512 && !Skipped(|p.path|, j) && Down(p, j) in w.tabs
    requires EntryOk(m, w, p, j)
    requires Load(m', w.tabs[p] + 8 * j) == Load(m, w.tabs[p] + 8 * j)
    ensures EntryVisits(m', w.tabs[p], |p.path|, j) ==
      Visits(m', w.tabs[Down(p, j)], |p.path| + 1, 0) + multiset{w.tabs[Down(p, j)]}
  {
    hide *;
    TableEntry(m, w, p, j);
    EntryGone(m', w.tabs[p], |p.path|, j);
  }

  /** A table below an entry lies deeper. */
  lemma NotAbove(w: World, p: Pos, j: nat, q: Pos)
    requires Down(p, j) in w.tabs
    ensures |Down(p, j).path| == |p.path| + 1
  {
    DownUp(p, j);
  }

  /** An entry that leads to no table of the world, and is not the one written. */
  lemma EntryAlone(m: Memory, last: nat, w: World, m': Memory, q: Pos, i: nat, p: Pos, j: nat)
    requires Written(m, last, w, m', q, i) && p in w.tabs && |p.path| <= 3 && j < 512 && (p != q || j != i)
    requires !(Down(p, j) in w.tabs && |p.path| < 3 && !Skipped(|p.path|, j))
    ensures EntryVisits(m', w.tabs[p], |p.path|, j) == EntryVisits(m, w.tabs[p], |p.path|, j) && !Through(p, j, q, i)
  {
    WrittenParts(m, last, w, m', q, i, p, j);
    EntryBelow(m, w.tabs[p], |p.path|, j);
    EntryBelow(m', w.tabs[p], |p.path|, j);
    if Skipped(|p.path|, j) {
      NotSkipped(m, last, w, m', q, i, p, j);
    } else if |p.path| == 3 {
      ThroughDown(p, j, q, i);
      VisitsEnd(m, PageOf(Load(m, w.tabs[p] + 8 * j)), 4);
      VisitsEnd(m', PageOf(Load(m, w.tabs[p] + 8 * j)), 4);
      hide Visits, EntryVisits, Load, Written, Through, Under;
    } else {
      TableEntry(m, w, p, j);
      NotThrough(w, p, j, q, i);
      if Down(p, j) in w.foreign { SharedBelow(m, last, w, m', q, i, p, j); }
      hide Visits, EntryVisits, Load, Written, Through, Under;
    }
  }

  lemma SharedBelow(m: Memory, last: nat, w: World, m': Memory, q: Pos, i: nat, p: Pos, j: nat)
    requires Written(m, last, w, m', q, i) && p in w.tabs && |p.path| < 3 && j < 512 && Down(p, j) in w.foreign
    requires !Skipped(|p.path|, j)
    ensures var t := Floor(Load(m, w.tabs[p] + 8 * j)); Visits(m', t, |p.path| + 1, 0) == Visits(m, t, |p.path| + 1, 0)
  {
    DownUp(p, j);
    assert Down(p, j).path[|p.path|] == j;
    hide WorldOk, Sealed;
    SharedEntry(m, last, w, m', p, j);
  }

  lemma NotSkipped(m: Memory, last: nat, w: World, m': Memory, q: Pos, i: nat, p: Pos, j: nat)
    requires Written(m, last, w, m', q, i) && p in w.tabs && Skipped(|p.path|, j)
    ensures !Through(p, j, q, i)
  {}

  lemma {:induction false} VisitsWrite(m: Memory, last: nat, w: World, m': Memory, q: Pos, i: nat, p: Pos, j: nat)
    requires Written(m, last, w, m', q, i) && p in w.tabs && |p.path| <= 3 && j <= 512
    ensures |q.path| <= 3
    ensures Exchanged(Visits(m, w.tabs[p], |p.path|, j), Visits(m', w.tabs[p], |p.path|, j), Under(p, j, q, i),
      EntryVisits(m, w.tabs[q], |q.path|, i), EntryVisits(m', w.tabs[q], |q.path|, i))
    decreases 4 - |p.path|, 512 - j, 1
  {
    WrittenEnd(m, last, w, m', q, i, p);
    if j < 512 {
      VisitsNext(m, w.tabs[p], |p.path|, j);
      VisitsNext(m', w.tabs[p], |p.path|, j);
      UnderNext(p, j, q, i);
      hide *;
      EntryWrite(m, last, w, m', q, i, p, j);
      VisitsWrite(m, last, w, m', q, i, p, j + 1);
      ExchangedSum(EntryVisits(m, w.tabs[p], |p.path|, j), EntryVisits(m', w.tabs[p], |p.path|, j),
        Visits(m, w.tabs[p], |p.path|, j + 1), Visits(m', w.tabs[p], |p.path|, j + 1), Through(p, j, q, i),
          Under(p, j + 1, q, i),
        EntryVisits(m, w.tabs[q], |q.path|, i), EntryVisits(m', w.tabs[q], |q.path|, i));
    } else {
      VisitsEnd(m, w.tabs[p], |p.path|);
      VisitsEnd(m', w.tabs[p], |p.path|);
      hide Written, Visits, EntryVisits, Under;
    }
  }

  lemma WrittenEnd(m: Memory, last: nat, w: World, m': Memory, q: Pos, i: nat, p: Pos)
    requires Written(m, last, w, m', q, i) && p in w.tabs
    ensures !Under(p, 512, q, i) && |q.path| <= 3
  {
    UnderEnd(w, p, q, i);
  }
}
