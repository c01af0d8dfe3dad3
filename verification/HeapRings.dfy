/**
 * Linking and unlinking on the rings of equal-sized chunks, and what each change means for the bins.
 */
module HeapRings {
  import opened Basics
  import opened BinIndex
  import opened BinMaps
  import opened HeapLayout
  import opened HeapTrie
  import opened HeapBins
  import opened Words

  function Pushed(r: seq<nat>, x: nat): seq<nat>
    requires |r| > 0
  {
    [r[0], x] + r[1..]
  }

  function Dropped(r: seq<nat>, j: nat): seq<nat>
    requires j < |r|
  {
    r[..j] + r[j + 1..]
  }

  /** The first chunk leaves; the last one takes its place at the front. */
  function Promoted(r: seq<nat>): seq<nat>
    requires |r| > 1
  {
    [r[|r| - 1]] + r[1..|r| - 1]
  }

  /** The successor of the front. */
  function Second(r: seq<nat>): nat
    requires |r| > 0
  {
    if |r| > 1 then r[1] else r[0]
  }

  function Prev(r: seq<nat>, k: nat): (n: nat)
    requires k < |r|
    ensures n < |r|
  {
    if k > 0 then k - 1 else |r| - 1
  }

  lemma PushLinked(m: Memory, m': Memory, r: seq<nat>, x: nat)
    requires |r| > 0 && Distinct(r) && x !in r
    requires |r| > 1 ==> RingLinked(m, r)
    requires Get(m', Fd(r[0])) == x && Get(m', Bk(Second(r))) == x
    requires Get(m', Fd(x)) == Second(r) && Get(m', Bk(x)) == r[0]
    requires forall k :: 0 < k < |r| ==> Get(m', Fd(r[k])) == Get(m, Fd(r[k]))
    requires forall k :: 0 <= k < |r| && r[k] != Second(r) ==> Get(m', Bk(r[k])) == Get(m, Bk(r[k]))
    ensures RingLinked(m', Pushed(r, x)) && Distinct(Pushed(r, x))
  {
    var q := Pushed(r, x);
    forall k | 0 <= k < |q| ensures LinkedAt(m', q, k) {
      if k >= 2 {
        assert q[k] == r[k - 1];
        assert LinkedAt(m, r, k - 1);
      }
    }
  }

  lemma DropLinked(m: Memory, m': Memory, r: seq<nat>, j: nat)
    requires 0 < j < |r| && Distinct(r) && RingLinked(m, r)
    requires Get(m', Fd(r[j - 1])) == r[Next(r, j)] && Get(m', Bk(r[Next(r, j)])) == r[j - 1]
    requires forall k :: 0 <= k < |r| && k != j - 1 && k != j ==> Get(m', Fd(r[k])) == Get(m, Fd(r[k]))
    requires forall k :: 0 <= k < |r| && k != Next(r, j) && k != j ==> Get(m', Bk(r[k])) == Get(m, Bk(r[k]))
    ensures RingLinked(m', Dropped(r, j)) && Distinct(Dropped(r, j))
  {
    var q := Dropped(r, j);
    forall k | 0 <= k < |q| ensures LinkedAt(m', q, k) {
      var i := if k < j then k else k + 1;
      assert q[k] == r[i];
      if i == j - 1 {
        assert q[Next(q, k)] == r[Next(r, j)];
      } else {
        assert q[Next(q, k)] == r[Next(r, i)];
        assert LinkedAt(m, r, i);
      }
    }
  }

  lemma PromoteLinked(m: Memory, m': Memory, r: seq<nat>)
    requires |r| > 1 && Distinct(r) && RingLinked(m, r)
    requires Get(m', Fd(r[|r| - 1])) == r[1] && Get(m', Bk(r[1])) == r[|r| - 1]
    requires forall k :: 0 < k < |r| - 1 ==> Get(m', Fd(r[k])) == Get(m, Fd(r[k]))
    requires forall k :: 1 < k < |r| ==> Get(m', Bk(r[k])) == Get(m, Bk(r[k]))
    ensures RingLinked(m', Promoted(r)) && Distinct(Promoted(r))
  {
    var q := Promoted(r);
    forall k | 0 <= k < |q| ensures LinkedAt(m', q, k) {
      if k > 0 {
        assert q[k] == r[k];
        assert LinkedAt(m, r, k);
      }
    }
  }

  // ----- adding a chunk to an existing ring

  ghost function PushOn(z: Bins, s: nat, x: nat): Bins
    requires s in z.rings && |z.rings[s]| > 0
  {
    z.(rings := z.rings[s := Pushed(z.rings[s], x)], binned := z.binned + {x})
  }

  lemma PushOnRings(l: Layout, z: Bins, s: nat, x: nat)
    requires RingsOk(l, z) && s in z.rings
    requires FreeOfSize(l, x, s) && x !in z.binned
    ensures RingOk(z, s) && x !in z.rings[s] && RingsOk(l, PushOn(z, s, x))
  {
    assert RingOk(z, s);
    var r, z' := z.rings[s], PushOn(z, s, x);
    var q := z'.rings[s];
    forall j | 0 <= j < |r| ensures r[j] != x {
      if OnRing(z, s, j) { assert r[j] in z.binned; }
    }
    forall c | c in z'.binned ensures MemberOk(l, z', c) {
      if c == x { assert q[1] == x; } else {
        assert MemberOk(l, z, c);
        if l.chunks[c].size == s { Keeps(r, x, c); }
      }
    }
    forall t, j | OnRing(z', t, j) ensures z'.rings[t][j] in z'.binned && FreeOfSize(l, z'.rings[t][j], t) {
      if t == s {
        if j >= 2 { assert q[j] == r[j - 1]; assert OnRing(z, s, j - 1); }
        if j == 0 { assert OnRing(z, s, 0); }
      } else {
        assert OnRing(z, t, j);
      }
    }
    forall t | t in z'.rings ensures RingOk(z', t) {
      assert RingOk(z, t);
    }
  }

  lemma Keeps(r: seq<nat>, x: nat, c: nat)
    requires |r| > 0 && c in r
    ensures c in Pushed(r, x)
  {
    var k :| 0 <= k < |r| && r[k] == c;
    if k > 0 { assert Pushed(r, x)[k + 1] == c; } else { assert Pushed(r, x)[0] == c; }
  }

  /** What linking x behind the front of ring s does to the bin cells. */
  ghost predicate PushedCells(l: Layout, z: Bins, m: Memory, m': Memory, s: nat, x: nat)
    requires s in z.rings && |z.rings[s]| > 0
  {
    var r := z.rings[s];
    && Get(m', Fd(r[0])) == x && Get(m', Bk(Second(r))) == x
    && Get(m', Fd(x)) == Second(r) && Get(m', Bk(x)) == r[0]
    && (forall c {:trigger Get(m', c)} ::
        BinCell(l, z, c) && c != Fd(r[0]) && c != Bk(Second(r)) ==> Get(m', c) == Get(m, c))
  }

  lemma PushOnLinks(l: Layout, z: Bins, m: Memory, m': Memory, s: nat, x: nat)
    requires RingsOk(l, z) && LinksOk(m, z) && s in z.rings && RingOk(z, s) && x !in z.rings[s]
    requires PushedCells(l, z, m, m', s, x)
    ensures LinksOk(m', PushOn(z, s, x))
  {
    var z' := PushOn(z, s, x);
    forall t | t in z'.rings && (|z'.rings[t]| > 1 || !IsSmall(t)) ensures RingLinked(m', z'.rings[t]) {
      if t == s {
        PushOnThis(l, z, m, m', s, x);
      } else {
        PushOnOther(l, z, m, m', s, x, t);
      }
    }
  }

  lemma PushOnThis(l: Layout, z: Bins, m: Memory, m': Memory, s: nat, x: nat)
    requires RingsOk(l, z) && LinksOk(m, z) && s in z.rings && RingOk(z, s) && x !in z.rings[s]
    requires PushedCells(l, z, m, m', s, x)
    ensures RingLinked(m', Pushed(z.rings[s], x))
  {
    var r := z.rings[s];
    forall k | 0 <= k < |r| ensures BinCell(l, z, Fd(r[k])) && BinCell(l, z, Bk(r[k])) { RingCells(l, z, s, k); }
    hide RingsOk, BinCell, RingLinked, Pushed, Get;
    PushLinked(m, m', r, x);
  }

  lemma PushOnOther(l: Layout, z: Bins, m: Memory, m': Memory, s: nat, x: nat, t: nat)
    requires RingsOk(l, z) && s in z.rings && RingOk(z, s)
    requires PushedCells(l, z, m, m', s, x)
    requires t in z.rings && t != s && RingLinked(m, z.rings[t])
    ensures RingLinked(m', z.rings[t])
  {
    OtherRing(l, z, s, t);
    forall k | 0 <= k < |z.rings[t]| ensures BinCell(l, z, Fd(z.rings[t][k])) && BinCell(l, z, Bk(z.rings[t][k])) {
      RingCells(l, z, t, k);
    }
    hide RingsOk, BinCell, Get;
    forall k | 0 <= k < |z.rings[t]| ensures LinkedAt(m', z.rings[t], k) { assert LinkedAt(m, z.rings[t], k); }
  }

  /** Rings of different sizes share no chunk. */
  lemma OtherRing(l: Layout, z: Bins, s: nat, t: nat)
    requires RingsOk(l, z) && s in z.rings && t in z.rings && s != t
    ensures forall j, k :: 0 <= j < |z.rings[s]| && 0 <= k < |z.rings[t]| ==> z.rings[s][j] != z.rings[t][k]
  {
    assert RingOk(z, s) && RingOk(z, t);
    forall j, k | 0 <= j < |z.rings[s]| && 0 <= k < |z.rings[t]| ensures z.rings[s][j] != z.rings[t][k] {
      NotHeader(l, z, s, j);
      NotHeader(l, z, t, k);
    }
  }

  lemma NotHeader(l: Layout, z: Bins, s: nat, j: nat)
    requires RingsOk(l, z) && s in z.rings && j < |z.rings[s]|
    ensures OnRing(z, s, j) ==> FreeOfSize(l, z.rings[s][j], s)
    ensures !OnRing(z, s, j) ==> z.rings[s][j] == Header(s / 8) && s % 8 == 0 && s < 256
  {
    assert RingOk(z, s);
  }


  lemma {:induction false} PushOnOk(l: Layout, z: Bins, m: Memory, m': Memory, smallmap: bv32, smallmap': bv32,
                                    treemap: bv32, s: nat, x: nat)
    requires BinsOk(l, m, smallmap, treemap, z) && s in z.rings && |z.rings[s]| > 0
    requires FreeOfSize(l, x, s) && x !in z.binned
    requires PushedCells(l, z, m, m', s, x)
    requires s in z.pos ==> ChainedWords(m', z, s, x)
    requires smallmap' == if IsSmall(s) && |z.rings[s]| == 1 then Mark(smallmap, s / 8) else smallmap
    ensures BinsOk(l, m', smallmap', treemap, PushOn(z, s, x))
  {
    hide PosOk, Mark, Marked, Get, BinCell;
    PushOnRings(l, z, s, x);
    PushOnLinks(l, z, m, m', s, x);
    assert WordCellsSame(l, z, m, m');
    SeatsFrame(l, m, m', z);
    ChainsFrame(l, m, m', z);
    PushOnTree(l, z, m', s, x);
    PushOnMaps(l, z, smallmap, smallmap', treemap, s, x);
  }

  /** A change behind the fronts of the rings leaves the tries alone. */
  lemma SameFronts(z: Bins, z': Bins)
    requires TreeShape(z) && z'.tree == z.tree && z'.pos == z.pos && z'.rings.Keys == z.rings.Keys
    requires forall t :: t in z.rings ==> Front(z', t) == Front(z, t)
    ensures TreeShape(z') && Seats(z') == Seats(z)
  {
    hide PosOk;
    forall t | t in z'.pos ensures NodeOk(z', t) { assert NodeOk(z, t); }
    forall p | p in z.tree ensures Front(z', z.tree[p]) == Front(z, z.tree[p]) { assert NodeOk(z, z.tree[p]); }
    hide Front;
    assert Seats(z') == Seats(z);
  }

  lemma PushOnTree(l: Layout, z: Bins, m': Memory, s: nat, x: nat)
    requires RingsOk(l, z) && TreeShape(z) && WordsOk(m', Seats(z)) && ChainsOk(m', z)
    requires s in z.rings && |z.rings[s]| > 0
    requires s in z.pos ==> ChainedWords(m', z, s, x)
    ensures var z' := PushOn(z, s, x); TreeShape(z') && WordsOk(m', Seats(z')) && ChainsOk(m', z')
  {
    hide WordsOk, ChainsOk, PosOk, RingsOk;
    SameFronts(z, PushOn(z, s, x));
    hide Seats, TreeShape;
    PushOnChains(z, m', s, x);
  }

  lemma PushOnChains(z: Bins, m': Memory, s: nat, x: nat)
    requires ChainsOk(m', z) && s in z.rings && |z.rings[s]| > 0
    requires s in z.pos ==> ChainedWords(m', z, s, x)
    ensures ChainsOk(m', PushOn(z, s, x))
  {
    var z' := PushOn(z, s, x);
    hide Get;
    forall t, j | t in z'.pos && t in z'.rings && 0 < j < |z'.rings[t]|
      ensures ChainedWords(m', z', t, z'.rings[t][j])
    {
      if t == s {
        if j >= 2 { assert ChainedWords(m', z, s, z.rings[s][j - 1]); }
      } else {
        assert ChainedWords(m', z, t, z.rings[t][j]);
      }
    }
  }

  lemma PushOnMaps(l: Layout, z: Bins, smallmap: bv32, smallmap': bv32, treemap: bv32, s: nat, x: nat)
    requires RingsOk(l, z) && MapsOk(smallmap, treemap, z) && s in z.rings && |z.rings[s]| > 0
    requires smallmap' == if IsSmall(s) && |z.rings[s]| == 1 then Mark(smallmap, s / 8) else smallmap
    ensures MapsOk(smallmap', treemap, PushOn(z, s, x))
  {
    hide Mark, Marked;
    assert RingOk(z, s);
    var z' := PushOn(z, s, x);
    forall i | 0 <= i < NBINS ensures 8 * i in z'.rings && (Marked(smallmap', i) <==> |z'.rings[8 * i]| > 1) {
      if IsSmall(s) { MarkClear(smallmap, s / 8, i); }
    }
  }

  // ----- taking a chunk off a ring, the front excepted

  ghost function DropAt(z: Bins, s: nat, j: nat): Bins
    requires s in z.rings && 0 < j < |z.rings[s]|
  {
    z.(rings := z.rings[s := Dropped(z.rings[s], j)], binned := z.binned - {z.rings[s][j]})
  }

  lemma DropAtRings(l: Layout, z: Bins, s: nat, j: nat)
    requires RingsOk(l, z) && s in z.rings && 0 < j < |z.rings[s]|
    ensures RingOk(z, s) && RingsOk(l, DropAt(z, s, j))
  {
    assert RingOk(z, s);
    var r, z' := z.rings[s], DropAt(z, s, j);
    var x, q := r[j], z'.rings[s];
    assert OnRing(z, s, j);
    forall k | 0 <= k < |q| ensures q[k] == r[if k < j then k else k + 1] {}
    forall c | c in z'.binned ensures MemberOk(l, z', c) {
      assert MemberOk(l, z, c);
      if l.chunks[c].size == s { KeepsOther(r, j, c); }
    }
    forall t, k | OnRing(z', t, k) ensures z'.rings[t][k] in z'.binned && FreeOfSize(l, z'.rings[t][k], t) {
      if t == s { assert OnRing(z, s, if k < j then k else k + 1); } else { assert OnRing(z, t, k); }
    }
    forall t | t in z'.rings ensures RingOk(z', t) { assert RingOk(z, t); }
  }

  lemma KeepsOther(r: seq<nat>, j: nat, c: nat)
    requires j < |r| && c in r && c != r[j]
    ensures c in Dropped(r, j)
  {
    var k :| 0 <= k < |r| && r[k] == c;
    assert Dropped(r, j)[if k < j then k else k - 1] == c;
  }

  /** What unlinking position j of ring s does to the bin cells; an emptied small bin is not relinked. */
  ghost predicate DroppedCells(l: Layout, z: Bins, m: Memory, m': Memory, s: nat, j: nat)
    requires s in z.rings && 0 < j < |z.rings[s]|
  {
    var r := z.rings[s];
    && (|r| > 2 || !IsSmall(s) ==> Get(m', Fd(r[j - 1])) == r[Next(r, j)] && Get(m', Bk(r[Next(r, j)])) == r[j - 1])
    && (forall c {:trigger Get(m', c)} ::
        BinCell(l, z, c) && c != Fd(r[j - 1]) && c != Bk(r[Next(r, j)]) ==> Get(m', c) == Get(m, c))
  }

  lemma DropAtLinks(l: Layout, z: Bins, m: Memory, m': Memory, s: nat, j: nat)
    requires RingsOk(l, z) && LinksOk(m, z) && s in z.rings && RingOk(z, s) && 0 < j < |z.rings[s]|
    requires DroppedCells(l, z, m, m', s, j)
    ensures LinksOk(m', DropAt(z, s, j))
  {
    var z' := DropAt(z, s, j);
    forall t | t in z'.rings && (|z'.rings[t]| > 1 || !IsSmall(t)) ensures RingLinked(m', z'.rings[t]) {
      if t == s {
        DropAtThis(l, z, m, m', s, j);
      } else {
        DropAtOther(l, z, m, m', s, j, t);
      }
    }
  }

  lemma DropAtThis(l: Layout, z: Bins, m: Memory, m': Memory, s: nat, j: nat)
    requires RingsOk(l, z) && LinksOk(m, z) && s in z.rings && RingOk(z, s) && 0 < j < |z.rings[s]|
    requires DroppedCells(l, z, m, m', s, j) && (|z.rings[s]| > 2 || !IsSmall(s))
    ensures RingLinked(m', Dropped(z.rings[s], j))
  {
    var r := z.rings[s];
    forall k | 0 <= k < |r| ensures BinCell(l, z, Fd(r[k])) && BinCell(l, z, Bk(r[k])) { RingCells(l, z, s, k); }
    hide RingsOk, BinCell, RingLinked, Dropped, Get, IsSmall;
    DropLinked(m, m', r, j);
  }

  lemma DropAtOther(l: Layout, z: Bins, m: Memory, m': Memory, s: nat, j: nat, t: nat)
    requires RingsOk(l, z) && s in z.rings && RingOk(z, s) && 0 < j < |z.rings[s]|
    requires DroppedCells(l, z, m, m', s, j)
    requires t in z.rings && t != s && RingLinked(m, z.rings[t])
    ensures RingLinked(m', z.rings[t])
  {
    OtherRing(l, z, s, t);
    forall k | 0 <= k < |z.rings[t]| ensures BinCell(l, z, Fd(z.rings[t][k])) && BinCell(l, z, Bk(z.rings[t][k])) {
      RingCells(l, z, t, k);
    }
    hide RingsOk, BinCell, Get;
    forall k | 0 <= k < |z.rings[t]| ensures LinkedAt(m', z.rings[t], k) { assert LinkedAt(m, z.rings[t], k); }
  }

  lemma {:induction false} DropAtOk(l: Layout, z: Bins, m: Memory, m': Memory, smallmap: bv32, smallmap': bv32,
                                    treemap: bv32, s: nat, j: nat)
    requires BinsOk(l, m, smallmap, treemap, z) && s in z.rings && 0 < j < |z.rings[s]|
    requires DroppedCells(l, z, m, m', s, j)
    requires smallmap' == if IsSmall(s) && |z.rings[s]| == 2 then Clear(smallmap, s / 8) else smallmap
    ensures BinsOk(l, m', smallmap', treemap, DropAt(z, s, j))
  {
    hide PosOk, Clear, Marked, Get, BinCell;
    DropAtRings(l, z, s, j);
    DropAtLinks(l, z, m, m', s, j);
    assert WordCellsSame(l, z, m, m');
    SeatsFrame(l, m, m', z);
    ChainsFrame(l, m, m', z);
    DropAtTree(l, z, m', s, j);
    DropAtMaps(l, z, smallmap, smallmap', treemap, s, j);
  }

  lemma DropAtTree(l: Layout, z: Bins, m': Memory, s: nat, j: nat)
    requires RingsOk(l, z) && TreeShape(z) && WordsOk(m', Seats(z)) && ChainsOk(m', z)
    requires s in z.rings && 0 < j < |z.rings[s]|
    ensures var z' := DropAt(z, s, j); TreeShape(z') && WordsOk(m', Seats(z')) && ChainsOk(m', z')
  {
    var z' := DropAt(z, s, j);
    SameFronts(z, z');
    hide PosOk, WordsOk, Get, TreeShape, Seats, RingsOk;
    forall t, k | t in z'.pos && t in z'.rings && 0 < k < |z'.rings[t]|
      ensures ChainedWords(m', z', t, z'.rings[t][k])
    {
      if t == s {
        assert ChainedWords(m', z, s, z.rings[s][if k < j then k else k + 1]);
      } else {
        assert ChainedWords(m', z, t, z.rings[t][k]);
      }
    }
  }

  lemma DropAtMaps(l: Layout, z: Bins, smallmap: bv32, smallmap': bv32, treemap: bv32, s: nat, j: nat)
    requires RingsOk(l, z) && MapsOk(smallmap, treemap, z) && s in z.rings && 0 < j < |z.rings[s]|
    requires smallmap' == if IsSmall(s) && |z.rings[s]| == 2 then Clear(smallmap, s / 8) else smallmap
    ensures MapsOk(smallmap', treemap, DropAt(z, s, j))
  {
    hide Clear, Marked;
    assert RingOk(z, s);
    var z' := DropAt(z, s, j);
    forall i | 0 <= i < NBINS ensures 8 * i in z'.rings && (Marked(smallmap', i) <==> |z'.rings[8 * i]| > 1) {
      if IsSmall(s) { MarkClear(smallmap, s / 8, i); }
    }
  }
}
