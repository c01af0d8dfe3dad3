/**
 * The books of the memory manager: what the live roots owe, step by step, and that the tables stay in order.
 */
module PageLedger {
  import opened Basics
  import opened Words
  import opened PageTables
  import opened PageWorld
  import opened PageRange
  import opened PageVisits
  import opened PageOwed

  // ----- one entry written, for all roots

  /** The walk of every other root meets what it met. */
  lemma OtherRoot(m: Memory, last: nat, w: World, m': Memory, q: Pos, i: nat, root: nat)
    requires Written(m, last, w, m', q, i) && Pos(root, []) in w.tabs && root != q.root
    ensures RootVisits(m', root) == RootVisits(m, root)
  {
    assert w.tabs[Pos(root, [])] == root;
    hide Written, Visits, EntryVisits;
    VisitsWrite(m, last, w, m', q, i, Pos(root, []), 0);
  }

  lemma OwnRoot(m: Memory, last: nat, w: World, m': Memory, q: Pos, i: nat)
    requires Written(m, last, w, m', q, i) && Pos(q.root, []) in w.tabs
    ensures |q.path| <= 3
    ensures RootVisits(m', q.root) + EntryVisits(m, w.tabs[q], |q.path|, i) ==
      RootVisits(m, q.root) + EntryVisits(m', w.tabs[q], |q.path|, i)
  {
    assert w.tabs[Pos(q.root, [])] == q.root;
    assert Under(Pos(q.root, []), 0, q, i);
    hide Written, Visits, EntryVisits;
    VisitsWrite(m, last, w, m', q, i, Pos(q.root, []), 0);
    Rearranged(Visits(m, q.root, 0, 0), Visits(m', q.root, 0, 0), EntryVisits(m, w.tabs[q], |q.path|, i),
               EntryVisits(m', w.tabs[q], |q.path|, i), multiset{q.root});
  }

  lemma Rearranged(a: multiset<nat>, a': multiset<nat>, d: multiset<nat>, d': multiset<nat>, s: multiset<nat>)
    requires a' + d == a + d'
    ensures (a' + s) + d == (a + s) + d'
  {
    assert (a' + s) + d == (a' + d) + s && (a + s) + d' == (a + d') + s;
  }

  lemma {:induction false} TotalOthers(m: Memory, last: nat, w: World, m': Memory, q: Pos, i: nat, roots: map<nat, nat>,
                                       ids: seq<nat>)
    requires Written(m, last, w, m', q, i)
    requires forall id :: id in roots ==> Pos(roots[id], []) in w.tabs && roots[id] != q.root
    ensures Total(m', roots, ids) == Total(m, roots, ids)
  {
    hide Written, RootVisits;
    if ids != [] {
      TotalOthers(m, last, w, m', q, i, roots, ids[1..]);
      if ids[0] in roots { OtherRoot(m, last, w, m', q, i, roots[ids[0]]); }
    }
  }

  /** The ids name the roots, each once. */
  ghost predicate Named(roots: map<nat, nat>, ids: seq<nat>) {
    Distinct(ids) && forall id :: id in roots <==> id in ids
  }

  /** Roots other than that of id owe what they owed. */
  ghost predicate OthersOwe(m: Memory, m': Memory, roots: map<nat, nat>, id: nat) {
    forall x {:trigger x in roots} :: x in roots && x != id ==> RootVisits(m', roots[x]) == RootVisits(m, roots[x])
  }

  /** The total changes by what the entry written contributed and contributes. */
  lemma TotalWrite(m: Memory, last: nat, w: World, m': Memory, q: Pos, i: nat, roots: map<nat, nat>, ids: seq<nat>,
                   id: nat)
    requires Written(m, last, w, m', q, i) && Planted(w, roots) && Named(roots, ids) && id in roots
    requires roots[id] == q.root
    ensures |q.path| <= 3 && OthersOwe(m, m', roots, id)
    ensures Total(m', roots, ids) + EntryVisits(m, w.tabs[q], |q.path|, i) ==
      Total(m, roots, ids) + EntryVisits(m', w.tabs[q], |q.path|, i)
  {
    hide *;
    OthersWrite(m, last, w, m', q, i, roots, ids, id);
    OwnRoot(m, last, w, m', q, i);
    TotalLess(m, roots, ids, id);
    TotalLess(m', roots, ids, id);
    Rearranged(RootVisits(m, q.root), RootVisits(m', q.root), EntryVisits(m, w.tabs[q], |q.path|, i),
      EntryVisits(m', w.tabs[q], |q.path|, i), Total(m, roots - {id}, Without(ids, id)));
  }

  lemma OthersWrite(m: Memory, last: nat, w: World, m': Memory, q: Pos, i: nat, roots: map<nat, nat>, ids: seq<nat>,
                    id: nat)
    requires Written(m, last, w, m', q, i) && Planted(w, roots) && Named(roots, ids) && id in roots
    requires roots[id] == q.root
    ensures OthersOwe(m, m', roots, id) && Distinct(ids) && id in ids && Pos(q.root, []) in w.tabs && q in w.tabs
    ensures i < 512
    ensures Total(m', roots - {id}, Without(ids, id)) == Total(m, roots - {id}, Without(ids, id))
  {
    hide RootVisits, Total, EntryVisits, Visits;
    assert q in w.tabs && i < 512 && Pos(q.root, []) in w.tabs;
    hide Written;
    forall x | x in roots && x != id ensures Pos(roots[x], []) in w.tabs && roots[x] != q.root {}
    hide Planted;
    forall x | x in roots && x != id ensures RootVisits(m', roots[x]) == RootVisits(m, roots[x]) {
      OtherRoot(m, last, w, m', q, i, roots[x]);
    }
    TotalOthers(m, last, w, m', q, i, roots - {id}, Without(ids, id));
  }

  // ----- what the roots owe

  lemma {:induction false} EntryAmong(m: Memory, table: nat, level: nat, i: nat, j: nat)
    requires level <= 3 && i <= j < 512
    ensures EntryVisits(m, table, level, j) <= Visits(m, table, level, i)
    decreases j - i
  {
    VisitsNext(m, table, level, i);
    hide Visits, EntryVisits;
    if i < j { EntryAmong(m, table, level, i + 1, j); }
  }

  /** The first index on the way stays the first one. */
  lemma FirstIndex(p: Pos)
    requires |p.path| > 0 && p.path[0] != 384
    ensures |Up(p).path| == |p.path| - 1 && Up(p).root == p.root && (|Up(p).path| > 0 ==> Up(p).path[0] != 384)
    ensures !Skipped(|Up(p).path|, Last(p)) && Down(Up(p), Last(p)) == p
  {
    UpDown(p);
  }

  /** What the entry that leads to a table of the world contributes. */
  lemma EntryAbove(m: Memory, last: nat, w: World, p: Pos)
    requires WorldOk(m, last, w) && p in w.tabs && 0 < |p.path| <= 3 && p.path[0] != 384
    ensures Up(p) in w.tabs && Last(p) < 512
    ensures EntryVisits(m, w.tabs[Up(p)], |p.path| - 1, Last(p)) ==
      Visits(m, w.tabs[p], |p.path|, 0) + multiset{w.tabs[p]}
  {
    hide Visits, EntryVisits, Load, PageOf, Present, Floor, Skipped;
    FirstIndex(p);
    assert Up(p) in w.tabs && Last(p) < 512;
    EntryFound(m, last, w, Up(p), Last(p));
    hide WorldOk, Up, Last, Down;
    EntryBelow(m, w.tabs[Up(p)], |p.path| - 1, Last(p));
  }

  lemma EntryFound(m: Memory, last: nat, w: World, p: Pos, i: nat)
    requires WorldOk(m, last, w) && p in w.tabs && |p.path| < 3 && i < 512
    ensures var e := Load(m, w.tabs[p] + 8 * i);
      && (Down(p, i) in w.tabs ==> Present(e) && PageOf(e) == w.tabs[Down(p, i)])
      && (Down(p, i) in w.foreign && Down(p, i) !in w.tabs ==> Present(e) && PageOf(e) == Floor(e))
      && (Down(p, i) !in w.foreign && Down(p, i) !in w.tabs ==> !Present(e))
  {
    assert EntryOk(m, w, p, i);
    TableEntry(m, w, p, i);
  }

  /** Whatever lies below a table of the world, and the table itself, is met from its root. */
  lemma {:induction false} TableMet(m: Memory, last: nat, w: World, p: Pos)
    requires WorldOk(m, last, w) && p in w.tabs && |p.path| <= 3 && (|p.path| > 0 ==> p.path[0] != 384)
    ensures Visits(m, w.tabs[p], |p.path|, 0) + multiset{w.tabs[p]} <= RootVisits(m, p.root)
    decreases |p.path|
  {
    if |p.path| == 0 {
      assert p == Pos(p.root, []) && w.tabs[p] == p.root;
      hide WorldOk, Visits;
    } else {
      EntryAbove(m, last, w, p);
      FirstIndex(p);
      hide WorldOk, Visits, EntryVisits, RootVisits;
      TableMet(m, last, w, Up(p));
      EntryAmong(m, w.tabs[Up(p)], |p.path| - 1, 0, Last(p));
    }
  }

  /** What an entry of a table of the world contributes is met from the root. */
  lemma EntryMet(m: Memory, last: nat, w: World, p: Pos, i: nat)
    requires WorldOk(m, last, w) && p in w.tabs && |p.path| <= 3 && (|p.path| > 0 ==> p.path[0] != 384) && i < 512
    ensures EntryVisits(m, w.tabs[p], |p.path|, i) <= RootVisits(m, p.root)
  {
    hide WorldOk, Visits, EntryVisits, RootVisits;
    TableMet(m, last, w, p);
    EntryAmong(m, w.tabs[p], |p.path|, 0, i);
  }

  /** So is the page an entry of the world maps. */
  lemma PageMet(m: Memory, last: nat, w: World, q: Pos, e: nat)
    requires WorldOk(m, last, w) && |q.path| == 4 && q.path[0] != 384 && EntryPos(q) && Mapped(m, w, q) == Some(e)
    ensures PageOf(e) in RootVisits(m, q.root)
  {
    hide WorldOk, Visits, EntryVisits, RootVisits, PageOf, Load, Present, Skipped;
    FirstIndex(q);
    EntryBelow(m, w.tabs[Up(q)], 3, Last(q));
    EntryMet(m, last, w, Up(q), Last(q));
    assert PageOf(e) in EntryVisits(m, w.tabs[Up(q)], 3, Last(q));
  }

  /** And so is a shared table, with what lies below it. */
  lemma SharedMet(m: Memory, last: nat, w: World, q: Pos)
    requires WorldOk(m, last, w) && q in w.foreign && |q.path| > 0 && q.path[0] != 384 && Up(q) in w.tabs
    ensures Visits(m, Target(m, w, q), |q.path|, 0) + multiset{Target(m, w, q)} <= RootVisits(m, q.root)
  {
    hide Visits, EntryVisits, RootVisits, Load, PageOf, Present, Floor, Skipped;
    FirstIndex(q);
    assert |q.path| <= 3 && Last(q) < 512 && q !in w.tabs;
    EntryFound(m, last, w, Up(q), Last(q));
    hide WorldOk, Up, Last, Down;
    EntryBelow(m, w.tabs[Up(q)], |q.path| - 1, Last(q));
    EntryMet(m, last, w, Up(q), Last(q));
  }

  lemma RootOwed(m: Memory, roots: map<nat, nat>, ids: seq<nat>, id: nat)
    requires Named(roots, ids) && id in roots
    ensures RootVisits(m, roots[id]) <= Total(m, roots, ids)
  {
    hide RootVisits, Total;
    TotalLess(m, roots, ids, id);
  }

  // ----- the steps

  /** Shared places lead where they led. */
  ghost predicate TargetsKept(m: Memory, w: World, m': Memory, w': World) {
    && w'.foreign == w.foreign
    && forall q {:trigger q in w.foreign} :: q in w.foreign ==>
      |q.path| > 0 && Up(q) in w.tabs && Up(q) in w'.tabs && Target(m', w', q) == Target(m, w, q)
  }

  ghost predicate TabsStay(w: World, w': World) {
    w'.foreign == w.foreign && forall p :: p in w.tabs ==> p in w'.tabs && w'.tabs[p] == w.tabs[p]
  }

  lemma TargetsBut(m: Memory, m': Memory, w: World, w': World, p: Pos, i: nat)
    requires ForeignOk(w) && WordsBut(m, m', w, p, i) && Down(p, i) !in w.foreign && TabsStay(w, w')
    ensures TargetsKept(m, w, m', w')
  {
    forall q | q in w.foreign
      ensures |q.path| > 0 && Up(q) in w.tabs && Up(q) in w'.tabs && Target(m', w', q) == Target(m, w, q)
    {
      UpDown(q);
      assert Word(m', w, Up(q), Last(q)) == Word(m, w, Up(q), Last(q));
    }
  }

  /** The tables added are no deeper than the level. */
  ghost predicate Shallow(w: World, w': World, level: nat) {
    forall p {:trigger p in w'.tabs} :: p in w'.tabs && p !in w.tabs ==> |p.path| <= level
  }

  lemma TargetsSelf(m: Memory, last: nat, w: World, level: nat)
    requires WorldOk(m, last, w)
    ensures TargetsKept(m, w, m, w) && Shallow(w, w, level)
  {
    assert ForeignOk(w);
    hide WorldOk;
  }

  lemma TargetsTwice(m: Memory, w: World, m1: Memory, w1: World, m': Memory, w': World)
    requires TargetsKept(m, w, m1, w1) && TargetsKept(m1, w1, m', w')
    ensures TargetsKept(m, w, m', w')
  {
    hide Target;
  }

  /** One more table on the way. */
  lemma LinkedTargets(m: Memory, w: World, m1: Memory, last1: nat, w1: World, m': Memory, w': World, p: Pos, i: nat,
                      t: nat, level: nat)
    requires TargetsKept(m, w, m1, w1) && Shallow(w, w1, level) && WorldOk(m1, last1, w1)
    requires Linked(m1, w1, m', w', p, i, t) && |p.path| < level
    ensures TargetsKept(m, w, m', w') && Shallow(w, w', level)
  {
    assert ForeignOk(w1);
    DownUp(p, i);
    hide WorldOk, WordsBut, OnlyIn, Reach, TargetsKept;
    assert TabsStay(w1, w');
    TargetsBut(m1, m', w1, w', p, i);
    TargetsTwice(m, w, m1, w1, m', w');
  }

  /**
   * Above the entries of pages only new tables were linked, all of them present, writable and for user code; every
   * other word of the tables there were is as it was.
   */
  ghost predicate TablesBuilt(m: Memory, w: World, m': Memory, w': World) {
    && (forall p :: p in w.tabs ==> p in w'.tabs && w'.tabs[p] == w.tabs[p])
    && (forall p, j: nat {:trigger Word(m', w', p, j)} ::
        p in w.tabs && |p.path| < 3 && j < 512 && (Down(p, j) in w.tabs || Down(p, j) !in w'.tabs) ==>
        Word(m', w', p, j) == Word(m, w, p, j))
    && (forall q {:trigger Up(q)} :: q in w'.tabs && q !in w.tabs && |q.path| > 0 ==>
        Up(q) in w'.tabs && Word(m', w', Up(q), Last(q)) == w'.tabs[q] + 0x7)
  }

  lemma BuiltSelf(m: Memory, w: World)
    ensures TablesBuilt(m, w, m, w)
  {}

  lemma BuiltTwice(m: Memory, w: World, m1: Memory, w1: World, m': Memory, w': World)
    requires TablesBuilt(m, w, m1, w1) && TablesBuilt(m1, w1, m', w') && TabsOk(w1) && TabsOk(w')
    ensures TablesBuilt(m, w, m', w')
  {
    forall p, j: nat | p in w.tabs && |p.path| < 3 && j < 512 && (Down(p, j) in w.tabs || Down(p, j) !in w'.tabs)
      ensures Word(m', w', p, j) == Word(m, w, p, j)
    {
      assert Word(m1, w1, p, j) == Word(m, w, p, j);
    }
    forall q | q in w'.tabs && q !in w.tabs && |q.path| > 0
      ensures Up(q) in w'.tabs && Word(m', w', Up(q), Last(q)) == w'.tabs[q] + 0x7
    {
      UpDown(q);
      if q in w1.tabs { assert Word(m1, w1, Up(q), Last(q)) == w1.tabs[q] + 0x7; }
    }
  }

  lemma LinkedBuilt(m: Memory, w: World, m': Memory, w': World, p: Pos, i: nat, t: nat)
    requires Linked(m, w, m', w', p, i, t)
    ensures TablesBuilt(m, w, m', w')
  {
    DownUp(p, i);
    hide OnlyIn, Reach;
    forall q, j: nat | q in w.tabs && |q.path| < 3 && j < 512 && (Down(q, j) in w.tabs || Down(q, j) !in w'.tabs)
      ensures Word(m', w', q, j) == Word(m, w, q, j)
    {
      assert Word(m', w, q, j) == Word(m, w, q, j);
    }
  }

  /** One more table. */
  lemma MoreBuilt(m: Memory, w: World, m1: Memory, last1: nat, w1: World, m': Memory, last': nat, w': World, p: Pos,
                  i: nat, t: nat)
    requires TablesBuilt(m, w, m1, w1) && WorldOk(m1, last1, w1) && WorldOk(m', last', w')
    requires Linked(m1, w1, m', w', p, i, t)
    ensures TablesBuilt(m, w, m', w')
  {
    hide TablesBuilt, Linked, EntriesOk, FreeOk, ForeignOk, TabsOk;
    LinkedBuilt(m1, w1, m', w', p, i, t);
    BuiltTwice(m, w, m1, w1, m', w');
  }

  /** The entry of a page, written. */
  lemma SetBuilt(m: Memory, w: World, m1: Memory, last1: nat, w1: World, m': Memory, root: nat, va: nat, e: nat)
    requires TablesBuilt(m, w, m1, w1) && WorldOk(m1, last1, w1) && At(root, va, 3) in w1.tabs
    requires m' == m1[w1.tabs[At(root, va, 3)] + 8 * Index(va, 3) := e]
    ensures TablesBuilt(m, w, m', w1)
  {
    hide *;
    TabsOf(m1, last1, w1);
    LeafAt(root, va);
    WordsOfWrite(m1, w1, At(root, va, 3), Index(va, 3), e);
    OnlyBuilt(m1, m', w1, At(root, va, 3), Index(va, 3));
    BuiltTwice(m, w, m1, w1, m', w1);
  }

  lemma LeafAt(root: nat, va: nat)
    ensures |At(root, va, 3).path| == 3 && Index(va, 3) < 512
  {
    hide Index;
  }

  lemma BuiltSame(m: Memory, w: World, m': Memory, w1: World, w': World)
    requires TablesBuilt(m, w, m', w1) && w'.tabs == w1.tabs
    ensures TablesBuilt(m, w, m', w')
  {
    hide Load, Up, Down;
    forall p, j: nat | p in w.tabs && |p.path| < 3 && j < 512 && (Down(p, j) in w.tabs || Down(p, j) !in w'.tabs)
      ensures Word(m', w', p, j) == Word(m, w, p, j)
    {
      assert Word(m', w1, p, j) == Word(m, w, p, j);
    }
    forall q | q in w'.tabs && q !in w.tabs && |q.path| > 0
      ensures Up(q) in w'.tabs && Word(m', w', Up(q), Last(q)) == w'.tabs[q] + 0x7
    {
      assert q in w1.tabs;
    }
  }

  lemma BuiltOn(m: Memory, w: World, m1: Memory, last1: nat, w1: World, m': Memory, last': nat, w': World)
    requires TablesBuilt(m, w, m1, w1) && WorldOk(m1, last1, w1) && WorldOk(m', last', w')
    requires TablesBuilt(m1, w1, m', w')
    ensures TablesBuilt(m, w, m', w')
  {
    hide TablesBuilt, EntriesOk, FreeOk, ForeignOk, TabsOk;
    BuiltTwice(m, w, m1, w1, m', w');
  }

  lemma WordsOfWrite(m: Memory, w: World, p: Pos, i: nat, e: nat)
    requires TabsOk(w) && p in w.tabs && i < 512
    ensures WordsBut(m, m[w.tabs[p] + 8 * i := e], w, p, i)
  {
    EntryWords(m, m, w, {}, p, i, e);
  }

  lemma OnlyBuilt(m: Memory, m': Memory, w: World, p: Pos, i: nat)
    requires WordsBut(m, m', w, p, i) && |p.path| == 3
    ensures TablesBuilt(m, w, m', w)
  {}

  /** All tables below a root are linked as present, writable and for user code. */
  ghost predicate OpenRoot(m: Memory, w: World, root: nat) {
    forall q {:trigger Up(q)} :: q in w.tabs && q.root == root && |q.path| > 0 ==>
      Up(q) in w.tabs && Word(m, w, Up(q), Last(q)) == w.tabs[q] + 0x7
  }

  lemma OpenBuilt(m: Memory, w: World, m': Memory, w': World, root: nat)
    requires OpenRoot(m, w, root) && TablesBuilt(m, w, m', w') && TabsOk(w')
    ensures OpenRoot(m', w', root)
  {
    forall q | q in w'.tabs && q.root == root && |q.path| > 0
      ensures Up(q) in w'.tabs && Word(m', w', Up(q), Last(q)) == w'.tabs[q] + 0x7
    {
      UpDown(q);
      if q in w.tabs { assert Word(m, w, Up(q), Last(q)) == w.tabs[q] + 0x7; }
    }
  }

  /** An entry that leads to no table of the world is written. */
  lemma OpenWrite(m: Memory, w: World, m': Memory, w': World, p: Pos, i: nat, e: nat, root: nat)
    requires OpenRoot(m, w, root) && TabsOk(w) && p in w.tabs && i < 512 && Down(p, i) !in w.tabs
    requires m' == m[w.tabs[p] + 8 * i := e] && w'.tabs == w.tabs
    ensures OpenRoot(m', w', root)
  {
    WordsOfWrite(m, w, p, i, e);
    hide TabsOk, WordsBut, Word, Up, Down;
    forall q | q in w'.tabs && q.root == root && |q.path| > 0
      ensures Up(q) in w'.tabs && Word(m', w', Up(q), Last(q)) == w'.tabs[q] + 0x7
    {
      assert Word(m, w, Up(q), Last(q)) == w.tabs[q] + 0x7;
      OpenEntry(m, w, m', w', p, i, q);
    }
  }

  lemma OpenEntry(m: Memory, w: World, m': Memory, w': World, p: Pos, i: nat, q: Pos)
    requires TabsOk(w) && WordsBut(m, m', w, p, i) && Down(p, i) !in w.tabs && q in w.tabs && |q.path| > 0
    requires w'.tabs == w.tabs
    ensures Up(q) in w.tabs && Word(m', w', Up(q), Last(q)) == Word(m, w, Up(q), Last(q))
  {
    UpDown(q);
    hide Load;
    assert Up(q) in w.tabs && Last(q) < 512;
    assert Word(m', w, Up(q), Last(q)) == Word(m, w, Up(q), Last(q));
  }

  /** On its way to an address the walk meets entries that are present, writable, for the user, and executable. */
  ghost predicate OpenWay(m: Memory, root: nat, a: nat) {
    forall n :: 0 <= n < 3 ==>
      var at := PagingAddr(m, root, a, n);
      at.Some? && Load(m, at.value) % 8 == 7 && Load(m, at.value) < 0x8000_0000_0000_0000
  }

  /** What the walk to a page grants on its way: bits 0, 1 and 2 of each entry are set, the no-execute bit is not. */
  lemma WalkRights(m: Memory, last: nat, w: World, root: nat, va: nat)
    requires WorldOk(m, last, w) && OpenRoot(m, w, root) && Own(w, root, va) && PagingAddr(m, root, va, 3).Some?
    ensures OpenWay(m, root, va)
  {
    WalkTellsOk(m, last, w, root, va, 3);
    forall n | 0 <= n < 3
      ensures PagingAddr(m, root, va, n).Some?
      ensures var e := Load(m, PagingAddr(m, root, va, n).value); e % 8 == 7 && e < 0x8000_0000_0000_0000
    {
      EntryRights(m, last, w, root, va, n);
    }
  }

  lemma EntryRights(m: Memory, last: nat, w: World, root: nat, va: nat, n: nat)
    requires WorldOk(m, last, w) && OpenRoot(m, w, root) && Own(w, root, va) && At(root, va, 3) in w.tabs && n < 3
    ensures PagingAddr(m, root, va, n).Some?
    ensures var e := Load(m, PagingAddr(m, root, va, n).value); e % 8 == 7 && e < 0x8000_0000_0000_0000
  {
    hide At, Index, PagingAddr, TabsOk, EntriesOk, FreeOk, ForeignOk, Own;
    TabsOf(m, last, w);
    OnWalk(w, root, va, n + 1, 3);
    OnWalk(w, root, va, n, 3);
    hide WorldOk;
    WalkTellsOk(m, last, w, root, va, n);
    var p, i, q := At(root, va, n), Index(va, n), At(root, va, n + 1);
    BelowAt(root, va, n);
    DownUp(p, i);
    TableRoom(w, q);
    assert Word(m, w, Up(q), Last(q)) == w.tabs[q] + 0x7;
  }

  lemma TabsOf(m: Memory, last: nat, w: World)
    requires WorldOk(m, last, w)
    ensures TabsOk(w)
  {}

  lemma BelowAt(root: nat, va: nat, n: nat)
    ensures At(root, va, n + 1) == Down(At(root, va, n), Index(va, n)) && At(root, va, n + 1).root == root
    ensures |At(root, va, n + 1).path| > 0
  {
    hide Index;
  }

  lemma TableRoom(w: World, q: Pos)
    requires TabsOk(w) && q in w.tabs
    ensures w.tabs[q] + 0x7 < 0x8000_0000_0000_0000 && (w.tabs[q] + 0x7) % 8 == 7
  {
    assert IsPage(w.tabs[q]);
    PageRoom(w.tabs[q]);
  }

  lemma PageRoom(p: nat)
    requires IsPage(p)
    ensures p + 0x7 < 0x8000_0000_0000_0000 && (p + 0x7) % 8 == 7
  {
    var k := p / 0x1000;
    assert p == 0x1000 * k && k < 0x8_0000_0000_0000;
    Eighths(0x200 * k);
  }

  lemma Eighths(k: nat)
    ensures (8 * k + 7) % 8 == 7
  {}

  lemma TargetsSame(m: Memory, last: nat, m': Memory, w: World, w': World, page: nat)
    requires WorldOk(m, last, w) && OnlyIn(m, m', {page}) && page !in w.tabs.Values && TabsStay(w, w')
    ensures TargetsKept(m, w, m', w')
  {
    forall q | q in w.foreign
      ensures |q.path| > 0 && Up(q) in w.tabs && Up(q) in w'.tabs && Target(m', w', q) == Target(m, w, q)
    {
      TableValue(w, Up(q));
      SlotInPage(w.tabs[Up(q)], Last(q));
      assert Load(m', w.tabs[Up(q)] + 8 * Last(q)) == Load(m, w.tabs[Up(q)] + 8 * Last(q));
    }
  }

  /** Writes within reach leave shared tables alone; what is no longer in reach does not matter. */
  lemma SealedStays(m: Memory, last: nat, w: World, m': Memory, w': World)
    requires WorldOk(m, last, w) && Sealed(m, w) && OnlyIn(m, m', Reach(w)) && Reach(w') <= Reach(w)
    requires TabsStay(w, w') && TargetsKept(m, w, m', w')
    ensures Sealed(m', w')
  {
    hide Avoids, Reach, Visits, Floor;
    forall q | q in w'.foreign && !Window(q)
      ensures |q.path| > 0 && Up(q) in w'.tabs && Avoids(m', Target(m', w', q), |q.path|, 0, Reach(w'))
    {
      FoundShared(m, last, w, m', q);
      AvoidsFewer(m', Target(m', w', q), |q.path|, 0, Reach(w), Reach(w'));
    }
  }

  lemma FoundShared(m: Memory, last: nat, w: World, m': Memory, q: Pos)
    requires WorldOk(m, last, w) && Sealed(m, w) && OnlyIn(m, m', Reach(w)) && q in w.foreign && !Window(q)
    ensures |q.path| > 0 && Up(q) in w.tabs && Last(q) < 512
    ensures Avoids(m', Target(m, w, q), |q.path|, 0, Reach(w)) && Target(m, w, q) !in Reach(w)
  {
    hide Avoids, Visits, Floor;
    assert 0 < |q.path| <= 3 && Up(q) in w.tabs && Last(q) < 512;
    UpDown(q);
    SharedEntry(m, last, w, m', Up(q), Last(q));
  }

  /** No shared place leads to the page. */
  ghost predicate Unshared(m: Memory, w: World, page: nat) {
    forall q {:trigger q in w.foreign} :: q in w.foreign && |q.path| > 0 && Up(q) in w.tabs ==> Target(m, w, q) != page
  }

  lemma WindowsStay(m: Memory, w: World, m': Memory, w': World, s: multiset<nat>, s': multiset<nat>)
    requires WindowsApart(m, w, s) && TargetsKept(m, w, m', w') && forall x :: x in s' ==> x in s || Unshared(m, w, x)
    ensures WindowsApart(m', w', s')
  {
    hide Target;
    forall q | q in w'.foreign && Window(q) && Up(q) in w'.tabs ensures Target(m', w', q) !in s' {
      assert q in w.foreign && Target(m', w', q) == Target(m, w, q);
    }
  }

  lemma UnusedUnshared(m: Memory, last: nat, w: World, f: nat)
    requires WorldOk(m, last, w) && f in w.free
    ensures Unshared(m, w, f)
  {
    forall q | q in w.foreign && |q.path| > 0 && Up(q) in w.tabs ensures Target(m, w, q) != f {
      UpDown(q);
      assert EntryOk(m, w, Up(q), Last(q));
    }
  }

  lemma {:induction false} VisitsZero(m: Memory, table: nat, level: nat, i: nat)
    requires i <= 512 && forall j :: 0 <= j < 512 ==> Load(m, table + 8 * j) == 0
    ensures Visits(m, table, level, i) == multiset{}
    decreases 512 - i
  {
    if level <= 3 && i < 512 {
      VisitsNext(m, table, level, i);
      EntryGone(m, table, level, i);
      assert Load(m, table + 8 * i) == 0;
      hide Visits, EntryVisits, Load;
      VisitsZero(m, table, level, i + 1);
    }
  }

  /** The table t has been taken, cleared and linked at entry i of the table at p, which led nowhere. */
  ghost predicate Linked(m: Memory, w: World, m': Memory, w': World, p: Pos, i: nat, t: nat) {
    && p in w.tabs && |p.path| < 3 && i < 512 && Down(p, i) !in w.tabs && Down(p, i) !in w.foreign
    && |w.free| > 0 && t == w.free[0] && w' == AddTable(Popped(w), Down(p, i), t)
    && WordsBut(m, m', w, p, i) && OnlyIn(m, m', Reach(w)) && Load(m', w.tabs[p] + 8 * i) == t + MAP_DEFAULT
    && forall j :: 0 <= j < 512 ==> Load(m', t + 8 * j) == 0
  }

  /** A new table, linked: it is owed once more, and all stays in order. */
  lemma TableOwed(m: Memory, last: nat, w: World, m': Memory, last': nat, w': World, roots: map<nat, nat>,
                  ids: seq<nat>, id: nat, p: Pos, i: nat, t: nat)
    requires Structured(m, last, w, roots) && WorldOk(m', last', w') && Named(roots, ids) && id in roots
    requires roots[id] == p.root
    requires Linked(m, w, m', w', p, i, t) && DigitOf(p, i, 0) != 384
    ensures Structured(m', last', w', roots) && OthersOwe(m, m', roots, id)
    ensures Total(m', roots, ids) == Total(m, roots, ids) + multiset{t}
    ensures WindowsApart(m, w, Total(m, roots, ids)) ==> WindowsApart(m', w', Total(m', roots, ids))
  {
    TableStructured(m, last, w, m', last', w', roots, p, i, t);
    TableTotal(m, last, w, m', w', roots, ids, id, p, i, t);
    if WindowsApart(m, w, Total(m, roots, ids)) {
      UnusedUnshared(m, last, w, t);
      hide *;
      WindowsStay(m, w, m', w', Total(m, roots, ids), Total(m', roots, ids));
    }
  }

  lemma TableStructured(m: Memory, last: nat, w: World, m': Memory, last': nat, w': World, roots: map<nat, nat>, p: Pos,
                        i: nat, t: nat)
    requires Structured(m, last, w, roots) && WorldOk(m', last', w')
    requires Linked(m, w, m', w', p, i, t) && DigitOf(p, i, 0) != 384
    ensures Structured(m', last', w', roots) && TargetsKept(m, w, m', w') && t in w.free
  {
    hide Sealed, Planted, Visits, EntryVisits, Load, Reach, WordsBut, TargetsKept, OnlyIn;
    TablePlanted(w, roots, p, i, t);
    assert ForeignOk(w) && t in w.free;
    TargetsBut(m, m', w, w', p, i);
    hide WorldOk;
    SealedStays(m, last, w, m', w');
  }

  lemma TableTotal(m: Memory, last: nat, w: World, m': Memory, w': World, roots: map<nat, nat>, ids: seq<nat>, id: nat,
                   p: Pos, i: nat, t: nat)
    requires Structured(m, last, w, roots) && Named(roots, ids) && id in roots && roots[id] == p.root
    requires Linked(m, w, m', w', p, i, t) && DigitOf(p, i, 0) != 384
    ensures OthersOwe(m, m', roots, id)
    ensures Total(m', roots, ids) == Total(m, roots, ids) + multiset{t}
  {
    assert Written(m, last, w, m', p, i);
    LinkedEntry(m, last, w, m', w', p, i, t);
    hide *;
    TotalWrite(m, last, w, m', p, i, roots, ids, id);
  }

  /** The entry contributed nothing, and contributes the new table now. */
  lemma LinkedEntry(m: Memory, last: nat, w: World, m': Memory, w': World, p: Pos, i: nat, t: nat)
    requires WorldOk(m, last, w) && Linked(m, w, m', w', p, i, t) && DigitOf(p, i, 0) != 384
    ensures p in w.tabs && |p.path| <= 3 && i < 512
    ensures EntryVisits(m, w.tabs[p], |p.path|, i) == multiset{}
    ensures EntryVisits(m', w.tabs[p], |p.path|, i) == multiset{t}
  {
    assert !Skipped(|p.path|, i) && t in w.free;
    EntryFound(m, last, w, p, i);
    HeadEntry(m, last, w, t);
    hide *;
    EntryGain(m, m', w.tabs[p], |p.path|, i, t);
  }

  lemma EntryGain(m: Memory, m': Memory, table: nat, level: nat, i: nat, t: nat)
    requires level <= 3 && i < 512 && !Skipped(level, i) && !Present(Load(m, table + 8 * i))
    requires Present(Load(m', table + 8 * i)) && PageOf(Load(m', table + 8 * i)) == t
    requires forall j :: 0 <= j < 512 ==> Load(m', t + 8 * j) == 0
    ensures EntryVisits(m, table, level, i) == multiset{} && EntryVisits(m', table, level, i) == multiset{t}
  {
    VisitsZero(m', t, level + 1, 0);
    hide Visits, EntryVisits, Load, PageOf, Present, Skipped;
    EntryGone(m, table, level, i);
    EntryGone(m', table, level, i);
  }

  lemma HeadEntry(m: Memory, last: nat, w: World, t: nat)
    requires WorldOk(m, last, w) && t in w.free
    ensures Present(t + MAP_DEFAULT) && PageOf(t + MAP_DEFAULT) == t
  {
    EntryFields(t, MAP_DEFAULT);
  }

  lemma TablePlanted(w: World, roots: map<nat, nat>, p: Pos, i: nat, t: nat)
    requires Planted(w, roots) && TabsOk(w) && p in w.tabs && |w.free| > 0 && t == w.free[0] && Down(p, i) !in w.tabs
    requires DigitOf(p, i, 0) != 384
    ensures Planted(AddTable(Popped(w), Down(p, i), t), roots) && TabsStay(w, AddTable(Popped(w), Down(p, i), t))
    ensures Reach(AddTable(Popped(w), Down(p, i), t)) == Reach(w)
  {
    hide Reach, TabsOk;
    ReachStep(w, Down(p, i), t);
    BelowFirst(p, i);
    BelowIn(w, p, i);
  }

  lemma BelowFirst(p: Pos, i: nat)
    requires DigitOf(p, i, 0) != 384
    ensures Down(p, i).root == p.root && |Down(p, i).path| > 0 && Down(p, i).path[0] != 384
  {
    DownUp(p, i);
  }

  lemma BelowIn(w: World, p: Pos, i: nat)
    requires |w.free| > 0 && Down(p, i) !in w.tabs
    ensures TabsStay(w, AddTable(Popped(w), Down(p, i), w.free[0]))
  {}

  // ----- the entry of a page

  /** The page an entry refers to, if it is present. */
  ghost function Referred(e: nat): multiset<nat> {
    if Present(e) then multiset{PageOf(e)} else multiset{}
  }

  lemma EntryLeaf(m: Memory, table: nat, i: nat)
    requires i < 512
    ensures EntryVisits(m, table, 3, i) == Referred(Load(m, table + 8 * i))
  {
    VisitsEnd(m, PageOf(Load(m, table + 8 * i)), 4);
    assert !Skipped(3, i);
    hide Visits, EntryVisits, Load, PageOf, Present;
    EntryGone(m, table, 3, i);
  }

  /** Entry i of the table at p, which is the last one on the way, now holds e. */
  ghost predicate LeafSet(m: Memory, w: World, m': Memory, p: Pos, i: nat, e: nat) {
    && p in w.tabs && |p.path| == 3 && i < 512
    && WordsBut(m, m', w, p, i) && OnlyIn(m, m', Reach(w)) && Load(m', w.tabs[p] + 8 * i) == e
  }

  /** An entry of a page, written: what it referred to is owed once less, what it refers to once more. */
  lemma LeafOwed(m: Memory, last: nat, w: World, m': Memory, roots: map<nat, nat>, ids: seq<nat>, id: nat, p: Pos,
                 i: nat, e: nat)
    requires Structured(m, last, w, roots) && WorldOk(m', last, w) && Named(roots, ids) && id in roots
    requires roots[id] == p.root
    requires LeafSet(m, w, m', p, i, e) && p.path[0] != 384
    ensures Structured(m', last, w, roots) && OthersOwe(m, m', roots, id) && TargetsKept(m, w, m', w)
    ensures Total(m', roots, ids) + Referred(Load(m, w.tabs[p] + 8 * i)) == Total(m, roots, ids) + Referred(e)
  {
    LeafTotal(m, last, w, m', roots, ids, id, p, i, e);
    LeafPlace(w, p, i);
    assert Sealed(m, w) && Planted(w, roots) && ForeignOk(w);
    assert WordsBut(m, m', w, p, i) && OnlyIn(m, m', Reach(w));
    assert Structured(m', last, w, roots) <== Sealed(m', w);
    hide *;
    TargetsBut(m, m', w, w, p, i);
    SealedStays(m, last, w, m', w);
  }

  lemma LeafTotal(m: Memory, last: nat, w: World, m': Memory, roots: map<nat, nat>, ids: seq<nat>, id: nat, p: Pos,
                  i: nat, e: nat)
    requires Structured(m, last, w, roots) && Named(roots, ids) && id in roots && roots[id] == p.root
    requires LeafSet(m, w, m', p, i, e) && p.path[0] != 384
    ensures OthersOwe(m, m', roots, id)
    ensures Total(m', roots, ids) + Referred(Load(m, w.tabs[p] + 8 * i)) == Total(m, roots, ids) + Referred(e)
  {
    hide Total, Visits, EntryVisits, Referred, OthersOwe, Sealed, WordsBut, OnlyIn, Reach, Named, Load;
    LeafPlace(w, p, i);
    assert Written(m, last, w, m', p, i) && Planted(w, roots);
    assert p in w.tabs && i < 512 && |p.path| == 3 && Load(m', w.tabs[p] + 8 * i) == e;
    hide *;
    EntryLeaf(m, w.tabs[p], i);
    EntryLeaf(m', w.tabs[p], i);
    TotalWrite(m, last, w, m', p, i, roots, ids, id);
  }

  lemma LeafPlace(w: World, p: Pos, i: nat)
    requires TabsOk(w) && ForeignOk(w) && |p.path| == 3
    ensures Down(p, i) !in w.tabs && Down(p, i) !in w.foreign && TabsStay(w, w)
  {
    DownUp(p, i);
  }

  // ----- a page given back

  /** A page that is not owed holds no table, and no shared place leads to it. */
  lemma UnowedLoose(m: Memory, last: nat, w: World, roots: map<nat, nat>, ids: seq<nat>, page: nat)
    requires Structured(m, last, w, roots) && Named(roots, ids) && page !in Total(m, roots, ids)
    requires IsPage(page) && page != 0 && page !in w.free
    requires forall q :: q in w.foreign && Window(q) && Up(q) in w.tabs ==> Target(m, w, q) != page
    ensures Loose(m, w, page)
  {
    hide Total, RootVisits, Visits;
    forall p | p in w.tabs ensures w.tabs[p] != page {
      var id :| id in roots && roots[id] == p.root;
      TableMet(m, last, w, p);
      RootOwed(m, roots, ids, id);
      assert w.tabs[p] in Visits(m, w.tabs[p], |p.path|, 0) + multiset{w.tabs[p]};
    }
    forall q, i | q in w.tabs && 0 <= i < 512 && Down(q, i) in w.foreign ensures Floor(Word(m, w, q, i)) != page {
      DownUp(q, i);
      if !Window(Down(q, i)) { SharedOwed(m, last, w, roots, ids, Down(q, i)); }
      assert Target(m, w, Down(q, i)) == Floor(Word(m, w, q, i));
    }
    hide Structured;
  }

  /** A shared table, and all below it, is owed. */
  lemma SharedOwed(m: Memory, last: nat, w: World, roots: map<nat, nat>, ids: seq<nat>, q: Pos)
    requires Structured(m, last, w, roots) && Named(roots, ids) && q in w.foreign && !Window(q)
    ensures |q.path| > 0 && Up(q) in w.tabs
    ensures Visits(m, Target(m, w, q), |q.path|, 0) + multiset{Target(m, w, q)} <= Total(m, roots, ids)
  {
    hide Total, RootVisits, Visits, Avoids;
    assert |q.path| > 0 && Up(q) in w.tabs;
    SharedFirst(m, last, w, roots, q);
    var id :| id in roots && roots[id] == q.root;
    SharedMet(m, last, w, q);
    RootOwed(m, roots, ids, id);
    hide *;
  }

  lemma SharedFirst(m: Memory, last: nat, w: World, roots: map<nat, nat>, q: Pos)
    requires Structured(m, last, w, roots) && q in w.foreign && !Window(q)
    ensures |q.path| > 0 && q.path[0] != 384 && q.root in roots.Values
  {
    assert Up(q) in w.tabs;
    UpDown(q);
    if |q.path| > 1 { assert Up(q).path[0] == q.path[0]; }
  }

  /** Putting a page that is not owed on the list leaves all in order. */
  lemma PushOwed(m: Memory, last: nat, w: World, roots: map<nat, nat>, ids: seq<nat>, page: nat)
    requires Structured(m, last, w, roots) && Named(roots, ids) && page !in Total(m, roots, ids) && Loose(m, w, page)
    ensures Structured(m[page := last], page, Pushed(w, page), roots)
    ensures Total(m[page := last], roots, ids) == Total(m, roots, ids)
    ensures forall id :: id in roots ==> RootVisits(m[page := last], roots[id]) == RootVisits(m, roots[id])
    ensures WindowsApart(m, w, Total(m, roots, ids)) ==>
      WindowsApart(m[page := last], Pushed(w, page), Total(m, roots, ids))
  {
    var m', w' := m[page := last], Pushed(w, page);
    hide Total, RootVisits, Visits, Sealed, Reach, Named, TargetsKept, WindowsApart;
    LoosePage(m, w, page);
    PushOk(m, last, w, page);
    FirstWord(page);
    assert OnlyIn(m, m', {page});
    assert page !in w.tabs.Values;
    TargetsSame(m, last, m', w, w', page);
    SealedPush(m, last, w, roots, ids, page, m', w');
    UnowedKept(m, w, m', roots, ids, page, last);
    hide *;
    if WindowsApart(m, w, Total(m, roots, ids)) {
      WindowsStay(m, w, m', w', Total(m, roots, ids), Total(m, roots, ids));
    }
  }

  lemma SealedPush(m: Memory, last: nat, w: World, roots: map<nat, nat>, ids: seq<nat>, page: nat, m': Memory,
                   w': World)
    requires Structured(m, last, w, roots) && Named(roots, ids) && page !in Total(m, roots, ids)
    requires OnlyIn(m, m', {page}) && w' == Pushed(w, page) && TargetsKept(m, w, m', w')
    ensures Sealed(m', w')
  {
    hide Total, RootVisits, Visits, Reach, Avoids, Target;
    PushedReach(w, page);
    forall q | q in w'.foreign && !Window(q)
      ensures |q.path| > 0 && Up(q) in w'.tabs && Avoids(m', Target(m', w', q), |q.path|, 0, Reach(w'))
    {
      var t := Target(m, w, q);
      SharedOwed(m, last, w, roots, ids, q);
      assert t in Visits(m, t, |q.path|, 0) + multiset{t};
      assert page !in Visits(m, t, |q.path|, 0) + multiset{t};
      AvoidsMore(m, t, |q.path|, 0, Reach(w), page);
      OutOfReach(m, last, w, q);
      OnlyInWider(m, m', {page}, Reach(w'));
      AvoidsSame(m, m', t, |q.path|, 0, Reach(w'));
    }
  }

  lemma OutOfReach(m: Memory, last: nat, w: World, q: Pos)
    requires WorldOk(m, last, w) && q in w.foreign && |q.path| > 0 && Up(q) in w.tabs
    ensures Target(m, w, q) !in Reach(w) && Target(m, w, q) % PAGE == 0
  {
    UpDown(q);
    assert EntryOk(m, w, Up(q), Last(q));
    PageAligned(Word(m, w, Up(q), Last(q)));
  }

  lemma PushedReach(w: World, page: nat)
    ensures Reach(Pushed(w, page)) == Reach(w) + {page}
  {}

  /** Nothing owed changes when the first word of a page that is not owed is written. */
  lemma UnowedKept(m: Memory, w: World, m': Memory, roots: map<nat, nat>, ids: seq<nat>, page: nat, v: nat)
    requires m' == m[page := v] && page % PAGE == 0 && TabsOk(w) && Planted(w, roots) && Named(roots, ids)
    requires page !in Total(m, roots, ids)
    ensures Total(m', roots, ids) == Total(m, roots, ids)
    ensures forall id :: id in roots ==> RootVisits(m', roots[id]) == RootVisits(m, roots[id])
  {
    forall id | id in roots ensures IsPage(roots[id]) { assert w.tabs[Pos(roots[id], [])] == roots[id]; }
    hide Total, Visits, WordsSame, Planted, TabsOk;
    forall p | p in Total(m, roots, ids) ensures WordsSame(m, m', p) {
      TotalPages(m, roots, ids, p);
      OtherPageSame(m, p, page, v);
    }
    TotalSame(m, m', roots, ids);
    forall id | id in roots ensures RootVisits(m', roots[id]) == RootVisits(m, roots[id]) {
      RootKept(m, m', roots, ids, id);
    }
    hide *;
  }

  lemma RootKept(m: Memory, m': Memory, roots: map<nat, nat>, ids: seq<nat>, id: nat)
    requires Named(roots, ids) && id in roots && forall p :: p in Total(m, roots, ids) ==> WordsSame(m, m', p)
    ensures RootVisits(m', roots[id]) == RootVisits(m, roots[id])
  {
    hide Total, Visits, WordsSame, Named;
    RootOwed(m, roots, ids, id);
    var r := roots[id];
    forall p | p in Visits(m, r, 0, 0) + multiset{r} ensures WordsSame(m, m', p) {
      assert p in RootVisits(m, r);
    }
    VisitsSame(m, m', r, 0, 0);
  }
}
