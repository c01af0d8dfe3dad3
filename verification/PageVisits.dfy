/**
 * All the ways from a root table to a page: what importing a root counts and dropping it counts back.
 * Tables may be shared, within a root and between roots.
 */
module PageVisits {
  import opened Basics
  import opened Words
  import opened PageTables
  import opened PageWorld
  import opened PageRange

  /** Entry 384 of a root is the window on physical memory and is passed over. */
  predicate Skipped(level: nat, i: nat) {
    level == 0 && i == 384
  }

  /** The pages met below entries i and up of a table, once for every way that leads to them. */
  ghost function Visits(m: Memory, table: nat, level: nat, i: nat): multiset<nat>
    decreases 4 - level, 512 - i
  {
    if level > 3 || i >= 512 then multiset{}
    else EntryVisits(m, table, level, i) + Visits(m, table, level, i + 1)
  }

  /** The pages met through one entry: those below its page, and the page itself. */
  ghost function EntryVisits(m: Memory, table: nat, level: nat, i: nat): multiset<nat>
    requires level <= 3 && i < 512
    decreases 4 - level, 512 - i, 0
  {
    var e := Load(m, table + 8 * i);
    if Skipped(level, i) || !Present(e) then multiset{}
    else Visits(m, PageOf(e), level + 1, 0) + multiset{PageOf(e)}
  }

  /** All 512 words of a page are the same. */
  ghost predicate WordsSame(m: Memory, m': Memory, p: nat) {
    forall j: nat :: j < 512 ==> WordAt(m', p, j) == WordAt(m, p, j)
  }

  function WordAt(m: Memory, p: nat, j: nat): nat {
    Load(m, p + 8 * j)
  }

  /** If the tables met have the same words, so do the pages met. */
  lemma {:induction false} VisitsSame(m: Memory, m': Memory, table: nat, level: nat, i: nat)
    requires WordsSame(m, m', table) && forall p :: p in Visits(m, table, level, i) ==> WordsSame(m, m', p)
    ensures Visits(m', table, level, i) == Visits(m, table, level, i)
    decreases 4 - level, 512 - i
  {
    if level <= 3 && i < 512 {
      assert WordAt(m', table, i) == WordAt(m, table, i);
      VisitsNext(m, table, level, i);
      VisitsNext(m', table, level, i);
      hide WordsSame, Visits, EntryVisits;
      forall p | p in Visits(m, table, level, i + 1) ensures WordsSame(m, m', p) {
        assert p in Visits(m, table, level, i);
      }
      VisitsSame(m, m', table, level, i + 1);
      EntrySame(m, m', table, level, i, Load(m, table + 8 * i));
    }
  }

  lemma {:induction false} EntrySame(m: Memory, m': Memory, table: nat, level: nat, i: nat, e: nat)
    requires level <= 3 && i < 512 && e == Load(m, table + 8 * i) && e == Load(m', table + 8 * i)
    requires forall p :: p in Visits(m, table, level, i) ==> WordsSame(m, m', p)
    ensures EntryVisits(m', table, level, i) == EntryVisits(m, table, level, i)
    decreases 4 - level, 512 - i, 0
  {
    VisitsNext(m, table, level, i);
    EntryGone(m, table, level, i);
    EntryGone(m', table, level, i);
    if !Skipped(level, i) && Present(e) {
      hide WordsSame, Visits, EntryVisits, PageOf;
      forall p | p in Visits(m, PageOf(e), level + 1, 0) ensures WordsSame(m, m', p) {
        assert p in EntryVisits(m, table, level, i);
        assert p in Visits(m, table, level, i);
      }
      assert PageOf(e) in EntryVisits(m, table, level, i);
      assert PageOf(e) in Visits(m, table, level, i);
      VisitsSame(m, m', PageOf(e), level + 1, 0);
    }
  }

  lemma VisitPages(m: Memory, table: nat, level: nat, i: nat, p: nat)
    requires p in Visits(m, table, level, i)
    ensures IsPage(p)
    decreases 4 - level, 512 - i
  {
    if level <= 3 && i < 512 {
      var e := Load(m, table + 8 * i);
      if p in Visits(m, table, level, i + 1) {
        VisitPages(m, table, level, i + 1, p);
      } else if p == PageOf(e) {
        PageAligned(e);
      } else {
        VisitPages(m, PageOf(e), level + 1, 0, p);
      }
    }
  }

  /** A write to the first word of another page leaves a page alone. */
  lemma OtherPageSame(m: Memory, p: nat, q: nat, v: nat)
    requires p % PAGE == 0 && q % PAGE == 0 && p != q
    ensures WordsSame(m, m[q := v], p)
  {
    forall j: nat | j < 512 ensures WordAt(m[q := v], p, j) == WordAt(m, p, j) {
      SlotInPage(p, j);
      SlotInPage(q, 0);
    }
  }

  lemma WordsTwice(m: Memory, m1: Memory, m': Memory, p: nat)
    requires WordsSame(m, m1, p) && WordsSame(m1, m', p)
    ensures WordsSame(m, m', p)
  {
    hide WordAt;
    forall j: nat | j < 512 ensures WordAt(m', p, j) == WordAt(m, p, j) {
      assert WordAt(m1, p, j) == WordAt(m, p, j);
    }
  }

  // ----- counts

  /** c' counts s more than c. */
  ghost predicate CountsMore(c: map<nat, nat>, c': map<nat, nat>, s: multiset<nat>) {
    forall p: nat {:trigger Count(c', p)} :: Count(c', p) == Count(c, p) + s[p]
  }

  lemma MoreOne(c: map<nat, nat>, page: nat)
    ensures CountsMore(c, c[page := Count(c, page) + 1], multiset{page})
  {}

  lemma MoreNone(c: map<nat, nat>)
    ensures CountsMore(c, c, multiset{})
  {}

  lemma MoreTwice(c: map<nat, nat>, c1: map<nat, nat>, c': map<nat, nat>, s: multiset<nat>, t: multiset<nat>)
    requires CountsMore(c, c1, s) && CountsMore(c1, c', t)
    ensures CountsMore(c, c', s + t)
  {
    hide Count;
    forall p: nat ensures Count(c', p) == Count(c, p) + (s + t)[p] {
      assert Count(c1, p) == Count(c, p) + s[p];
    }
  }

  /** Every page in s is counted for each of its occurrences. */
  ghost predicate Covered(c: map<nat, nat>, s: multiset<nat>) {
    forall p: nat {:trigger Count(c, p)} :: s[p] <= Count(c, p)
  }

  lemma CoveredAt(c: map<nat, nat>, s: multiset<nat>, p: nat)
    requires Covered(c, s) && p in s
    ensures Count(c, p) > 0
  {}

  lemma LessOne(c: map<nat, nat>, page: nat)
    requires Count(c, page) > 0
    ensures CountsMore(Lowered(c, page), c, multiset{page})
  {}

  /** Counting off what was owed leaves the rest covered. */
  lemma StillCovered(c: map<nat, nat>, c': map<nat, nat>, s: multiset<nat>, rest: multiset<nat>)
    requires Covered(c, s + rest) && CountsMore(c', c, s)
    ensures Covered(c', rest)
  {
    hide Count;
    forall p: nat ensures rest[p] <= Count(c', p) {
      assert (s + rest)[p] <= Count(c, p);
      assert Count(c, p) == Count(c', p) + s[p];
    }
  }

  // ----- what a teardown does

  /**
   * From one state to another the references s were dropped: the counts are lower by s, pages that are still
   * counted keep their words, and the pages now uncounted were put on the list, each once.
   */
  ghost predicate Dropped(m: Memory, free: seq<nat>, c: map<nat, nat>, m': Memory, free': seq<nat>, c': map<nat, nat>,
                          s: multiset<nat>) {
    && CountsMore(c', c, s)
    && (forall p: nat {:trigger WordsSame(m, m', p)} ::
        p % PAGE == 0 && (Count(c', p) > 0 || p !in s) ==> WordsSame(m, m', p))
    && (forall p: nat {:trigger multiset(free')[p]} ::
        multiset(free')[p] == multiset(free)[p] + if p in s && Count(c', p) == 0 then 1 else 0)
  }

  lemma DroppedNone(m: Memory, free: seq<nat>, c: map<nat, nat>)
    ensures Dropped(m, free, c, m, free, c, multiset{})
  {}

  lemma DroppedTwice(m: Memory, free: seq<nat>, c: map<nat, nat>, m1: Memory, free1: seq<nat>, c1: map<nat, nat>,
                     m': Memory, free': seq<nat>, c': map<nat, nat>, s: multiset<nat>, t: multiset<nat>)
    requires Dropped(m, free, c, m1, free1, c1, s) && Dropped(m1, free1, c1, m', free', c', t)
    ensures Dropped(m, free, c, m', free', c', s + t)
  {
    hide Count, WordsSame;
    MoreTwice(c', c1, c, t, s);
    assert t + s == s + t;
    forall p: nat | p % PAGE == 0 && (Count(c', p) > 0 || p !in s + t) ensures WordsSame(m, m', p) {
      CountAt(c', c1, t, p);
      WordsTwice(m, m1, m', p);
    }
    forall p: nat ensures multiset(free')[p] == multiset(free)[p] + if p in s + t && Count(c', p) == 0 then 1 else 0 {
      CountAt(c', c1, t, p);
      CountAt(c1, c, s, p);
      assert multiset(free1)[p] == multiset(free)[p] + if p in s && Count(c1, p) == 0 then 1 else 0;
    }
  }

  lemma CountAt(c: map<nat, nat>, c': map<nat, nat>, s: multiset<nat>, p: nat)
    requires CountsMore(c, c', s)
    ensures Count(c', p) == Count(c, p) + s[p]
  {}

  lemma DroppedOne(m: Memory, free: seq<nat>, c: map<nat, nat>, page: nat, last: nat)
    requires Count(c, page) > 0 && page % PAGE == 0
    ensures var last1 := Count(c, page) == 1;
      var m', free' := if last1 then m[page := last] else m, if last1 then [page] + free else free;
      Dropped(m, free, c, m', free', Lowered(c, page), multiset{page})
  {
    LessOne(c, page);
    var last1 := Count(c, page) == 1;
    var m', free' := if last1 then m[page := last] else m, if last1 then [page] + free else free;
    forall p: nat | p % PAGE == 0 && (Count(Lowered(c, page), p) > 0 || p !in multiset{page})
      ensures WordsSame(m, m', p)
    {
      if Count(c, page) == 1 { OtherPageSame(m, p, page, last); }
    }
    if Count(c, page) == 1 { PushedOnce(free, page); }
    hide WordsSame;
  }

  lemma PushedOnce(free: seq<nat>, page: nat)
    ensures multiset([page] + free) == multiset(free) + multiset{page}
  {}

  /** A table that still awaits its own turn has kept its words, and so has everything still owed. */
  lemma OwedSame(m: Memory, free: seq<nat>, c: map<nat, nat>, m': Memory, free': seq<nat>, c': map<nat, nat>,
                 s: multiset<nat>, table: nat, level: nat, i: nat, rest: multiset<nat>)
    requires Dropped(m, free, c, m', free', c', s) && Covered(c, s + (Visits(m, table, level, i) + rest))
    requires table in rest && table % PAGE == 0
    ensures Visits(m', table, level, i) == Visits(m, table, level, i)
    ensures Covered(c', Visits(m, table, level, i) + rest) && WordsSame(m, m', table)
  {
    var owed := Visits(m, table, level, i) + rest;
    StillCovered(c, c', s, owed);
    hide Count, WordsSame, Visits;
    forall p | p in owed && p % PAGE == 0 ensures WordsSame(m, m', p) {
      CoveredAt(c', owed, p);
    }
    forall p | p in Visits(m, table, level, i) ensures WordsSame(m, m', p) {
      VisitPages(m, table, level, i, p);
      assert p in owed;
    }
    assert table in owed;
    VisitsSame(m, m', table, level, i);
  }

  lemma VisitsNext(m: Memory, table: nat, level: nat, i: nat)
    requires level <= 3 && i < 512
    ensures Visits(m, table, level, i) == EntryVisits(m, table, level, i) + Visits(m, table, level, i + 1)
  {}

  lemma SumOfRest(s: multiset<nat>, t: multiset<nat>, rest: multiset<nat>)
    ensures (s + t) + rest == s + (t + rest)
  {}

  /** What lies below a page counts before the page itself, and both before what is still to come. */
  lemma SumOfPage(s: multiset<nat>, below: multiset<nat>, page: nat, next: multiset<nat>, rest: multiset<nat>)
    ensures (s + ((below + multiset{page}) + next)) + rest == s + (below + (next + rest + multiset{page}))
    ensures s + ((below + multiset{page}) + next) == (s + (below + multiset{page})) + next
  {}

  lemma VisitsEnd(m: Memory, table: nat, level: nat)
    ensures Visits(m, table, level, 512) == multiset{}
    ensures level > 3 ==> Visits(m, table, level, 0) == multiset{}
  {}

  lemma EntryGone(m: Memory, table: nat, level: nat, i: nat)
    requires level <= 3 && i < 512
    ensures var e := Load(m, table + 8 * i);
      EntryVisits(m, table, level, i) == if Skipped(level, i) || !Present(e) then multiset{}
        else Visits(m, PageOf(e), level + 1, 0) + multiset{PageOf(e)}
  {}

  // ----- all live roots

  /** Every way from a root, and the root itself. */
  ghost function RootVisits(m: Memory, cr3: nat): multiset<nat> {
    Visits(m, cr3, 0, 0) + multiset{cr3}
  }

  /** What all the roots named owe. */
  ghost function Total(m: Memory, roots: map<nat, nat>, ids: seq<nat>): multiset<nat> {
    if ids == [] then multiset{}
    else (if ids[0] in roots then RootVisits(m, roots[ids[0]]) else multiset{}) + Total(m, roots, ids[1..])
  }

  lemma {:induction false} TotalSame(m: Memory, m': Memory, roots: map<nat, nat>, ids: seq<nat>)
    requires forall p :: p in Total(m, roots, ids) ==> WordsSame(m, m', p)
    ensures Total(m', roots, ids) == Total(m, roots, ids)
  {
    hide WordsSame, Visits;
    if ids != [] {
      forall p | p in Total(m, roots, ids[1..]) ensures WordsSame(m, m', p) { assert p in Total(m, roots, ids); }
      TotalSame(m, m', roots, ids[1..]);
      if ids[0] in roots {
        var cr3 := roots[ids[0]];
        forall p | p in RootVisits(m, cr3) ensures WordsSame(m, m', p) { assert p in Total(m, roots, ids); }
        assert cr3 in RootVisits(m, cr3);
        forall p | p in Visits(m, cr3, 0, 0) ensures WordsSame(m, m', p) { assert p in RootVisits(m, cr3); }
        VisitsSame(m, m', cr3, 0, 0);
      }
    }
  }

  lemma {:induction false} TotalPages(m: Memory, roots: map<nat, nat>, ids: seq<nat>, p: nat)
    requires p in Total(m, roots, ids) && forall id :: id in roots ==> IsPage(roots[id])
    ensures IsPage(p)
  {
    hide Visits;
    if ids != [] {
      if p in Total(m, roots, ids[1..]) {
        TotalPages(m, roots, ids[1..], p);
      } else if p != roots[ids[0]] {
        VisitPages(m, roots[ids[0]], 0, 0, p);
      }
    }
  }

  /** A root added at the end. */
  lemma {:induction false} TotalMore(m: Memory, roots: map<nat, nat>, ids: seq<nat>, id: nat, cr3: nat)
    requires id !in ids
    ensures Total(m, roots[id := cr3], ids + [id]) == Total(m, roots, ids) + RootVisits(m, cr3)
  {
    hide RootVisits;
    if ids == [] {
      assert [id][1..] == [];
    } else {
      assert (ids + [id])[1..] == ids[1..] + [id];
      TotalMore(m, roots, ids[1..], id, cr3);
    }
  }

  function Without(ids: seq<nat>, id: nat): (r: seq<nat>)
    ensures forall x :: x in r <==> x in ids && x != id
    ensures |r| <= |ids|
  {
    if ids == [] then [] else (if ids[0] == id then [] else [ids[0]]) + Without(ids[1..], id)
  }

  lemma {:induction false} WithoutDistinct(ids: seq<nat>, id: nat)
    requires Distinct(ids)
    ensures Distinct(Without(ids, id))
  {
    if ids != [] {
      var r1 := Without(ids[1..], id);
      WithoutDistinct(ids[1..], id);
      forall x | x in r1 ensures x != ids[0] {
        var k :| 0 <= k < |ids[1..]| && ids[1..][k] == x;
        assert ids[k + 1] == x;
      }
      forall k | 0 <= k < |r1| ensures r1[k] != ids[0] { assert r1[k] in r1; }
    }
  }

  lemma {:induction false} TotalUnnamed(m: Memory, roots: map<nat, nat>, ids: seq<nat>, id: nat)
    requires id !in ids
    ensures Total(m, roots - {id}, ids) == Total(m, roots, ids) && Without(ids, id) == ids
  {
    hide RootVisits;
    if ids != [] {
      var rest := ids[1..];
      assert ids[0] != id && id !in rest && ids == [ids[0]] + rest;
      TotalUnnamed(m, roots, rest, id);
      assert ids[0] in roots - {id} <==> ids[0] in roots;
    }
  }

  /** A root taken away. */
  lemma {:induction false} TotalLess(m: Memory, roots: map<nat, nat>, ids: seq<nat>, id: nat)
    requires Distinct(ids) && id in ids && id in roots
    ensures Total(m, roots, ids) == RootVisits(m, roots[id]) + Total(m, roots - {id}, Without(ids, id))
  {
    hide RootVisits;
    var r, roots' := Without(ids, id), roots - {id};
    if ids[0] == id {
      assert id !in ids[1..];
      TotalUnnamed(m, roots, ids[1..], id);
      assert r == ids[1..];
    } else {
      TotalLess(m, roots, ids[1..], id);
      assert r == [ids[0]] + Without(ids[1..], id);
      assert r[0] == ids[0] && r[1..] == Without(ids[1..], id);
      assert ids[0] in roots' <==> ids[0] in roots;
    }
  }

  /**
   * The pages under management are either counted or on the list, where they are once each; no other page is
   * counted or on the list. Page 0 ends the list and is not managed.
   */
  ghost predicate Pooled(free: seq<nat>, c: map<nat, nat>, pool: set<nat>) {
    && (forall p: nat {:trigger multiset(free)[p]} ::
        multiset(free)[p] == if p in pool && Count(c, p) == 0 then 1 else 0)
    && (forall p: nat {:trigger Count(c, p)} :: Count(c, p) > 0 ==> p in pool) && 0 !in pool
  }

  lemma PooledMore(free: seq<nat>, c: map<nat, nat>, c': map<nat, nat>, s: multiset<nat>, pool: set<nat>,
                   pool': set<nat>)
    requires Pooled(free, c, pool) && CountsMore(c, c', s) && (forall p :: p in s ==> p !in free) && 0 !in s
    requires forall p :: p in pool' <==> p in pool || p in s
    ensures Pooled(free, c', pool')
  {
    forall p: nat ensures multiset(free)[p] == if p in pool' && Count(c', p) == 0 then 1 else 0 {
      assert Count(c', p) == Count(c, p) + s[p];
      assert p in s ==> multiset(free)[p] == 0;
    }
    forall p: nat | Count(c', p) > 0 ensures p in pool' {
      assert Count(c', p) == Count(c, p) + s[p];
    }
  }

  lemma PooledDropped(m: Memory, free: seq<nat>, c: map<nat, nat>, m': Memory, free': seq<nat>, c': map<nat, nat>,
                      s: multiset<nat>, pool: set<nat>)
    requires Pooled(free, c, pool) && Dropped(m, free, c, m', free', c', s)
    ensures Pooled(free', c', pool)
  {
    hide WordsSame;
    forall p: nat ensures multiset(free')[p] == if p in pool && Count(c', p) == 0 then 1 else 0 {
      CountAt(c', c, s, p);
      assert multiset(free')[p] == multiset(free)[p] + if p in s && Count(c', p) == 0 then 1 else 0;
    }
    forall p: nat | Count(c', p) > 0 ensures p in pool { CountAt(c', c, s, p); }
  }

  lemma PooledAt(free: seq<nat>, c: map<nat, nat>, pool: set<nat>, p: nat)
    requires Pooled(free, c, pool)
    ensures p in free <==> p in pool && Count(c, p) == 0
    ensures Count(c, p) > 0 ==> p in pool && p != 0
  {
    assert multiset(free)[p] > 0 <==> p in free;
  }

  /** A page put in front of a list it is not on. */
  lemma ListedPush(m: Memory, last: nat, free: seq<nat>, page: nat)
    requires Listed(m, last, free) && IsPage(page) && page != 0 && page !in free
    ensures Listed(m[page := last], page, [page] + free)
  {
    var free' := [page] + free;
    forall k | 0 <= k < |free'| ensures Load(m[page := last], free'[k]) == PageOn(free', k + 1) {
      if k > 0 { assert free'[k] == free[k - 1] && free[k - 1] in free; }
    }
  }

  /** What other roots can reach is counted still, so its words are as they were. */
  lemma OthersStand(m: Memory, free: seq<nat>, c: map<nat, nat>, m': Memory, free': seq<nat>, c': map<nat, nat>,
                    s: multiset<nat>, roots: map<nat, nat>, ids: seq<nat>)
    requires Dropped(m, free, c, m', free', c', s) && Covered(c', Total(m, roots, ids))
    requires forall id :: id in roots ==> IsPage(roots[id])
    ensures Total(m', roots, ids) == Total(m, roots, ids)
  {
    hide Count, WordsSame, Total;
    forall p | p in Total(m, roots, ids) ensures WordsSame(m, m', p) {
      TotalPages(m, roots, ids, p);
      CoveredAt(c', Total(m, roots, ids), p);
    }
    TotalSame(m, m', roots, ids);
  }

  lemma CoveredOf(base: map<nat, nat>, c: map<nat, nat>, s: multiset<nat>)
    requires CountsMore(base, c, s)
    ensures Covered(c, s)
  {}

  /** What is left of a sum after one part is counted off. */
  lemma MoreLeft(base: map<nat, nat>, c': map<nat, nat>, c: map<nat, nat>, s: multiset<nat>, rest: multiset<nat>)
    requires CountsMore(base, c, s + rest) && CountsMore(c', c, s)
    ensures CountsMore(base, c', rest)
  {
    hide Count;
    forall p: nat ensures Count(c', p) == Count(base, p) + rest[p] {
      assert Count(c, p) == Count(base, p) + (s + rest)[p];
      assert Count(c, p) == Count(c', p) + s[p];
    }
  }

  lemma RootVisitsAre(m: Memory, cr3: nat)
    ensures RootVisits(m, cr3) == Visits(m, cr3, 0, 0) + multiset{cr3}
    ensures RootVisits(m, cr3) == multiset{cr3} + Visits(m, cr3, 0, 0)
  {}

  lemma SameEntry(m: Memory, m': Memory, p: nat, i: nat)
    requires WordsSame(m, m', p) && i < 512
    ensures Load(m', p + 8 * i) == Load(m, p + 8 * i)
  {
    assert WordAt(m', p, i) == WordAt(m, p, i);
  }

  lemma DroppedCounts(m: Memory, free: seq<nat>, c: map<nat, nat>, m': Memory, free': seq<nat>, c': map<nat, nat>,
                      s: multiset<nat>)
    requires Dropped(m, free, c, m', free', c', s)
    ensures CountsMore(c', c, s)
  {}

  lemma CountsWithout(c: map<nat, nat>, id: nat)
    ensures forall x :: Count(c - {id}, x) == if x == id then 0 else Count(c, x)
  {}

  /** After a root is gone the others owe what they owed; what was lost stays lost. */
  lemma RootGone(m: Memory, free: seq<nat>, c: map<nat, nat>, m': Memory, free': seq<nat>, c': map<nat, nat>,
                 base: map<nat, nat>, cr3: nat, lost: multiset<nat>, roots: map<nat, nat>, ids: seq<nat>)
    requires Dropped(m, free, c, m', free', c', RootVisits(m, cr3))
    requires CountsMore(base, c, RootVisits(m, cr3) + (lost + Total(m, roots, ids)))
    requires forall id :: id in roots ==> IsPage(roots[id])
    ensures CountsMore(base, c', lost + Total(m', roots, ids)) && Total(m', roots, ids) == Total(m, roots, ids)
    ensures Covered(c', Total(m, roots, ids))
  {
    hide CountsMore, RootVisits, Total, Dropped, Covered;
    DroppedCounts(m, free, c, m', free', c', RootVisits(m, cr3));
    MoreLeft(base, c', c, RootVisits(m, cr3), lost + Total(m, roots, ids));
    CoveredOf(base, c', lost + Total(m, roots, ids));
    CoveredPart(c', lost, Total(m, roots, ids));
    OthersStand(m, free, c, m', free', c', RootVisits(m, cr3), roots, ids);
  }

  lemma CoveredPart(c: map<nat, nat>, s: multiset<nat>, t: multiset<nat>)
    requires Covered(c, s + t)
    ensures Covered(c, t)
  {
    hide Count;
    forall p: nat ensures t[p] <= Count(c, p) { assert (s + t)[p] <= Count(c, p); }
  }
}
