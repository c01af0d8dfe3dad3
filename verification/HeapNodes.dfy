/**
 * Changes to the tries: a new node, a ring partner taking over a node's place, a leaf leaving, and a
 * leaf taking over the place of an interior node.
 */
module HeapNodes {
  import opened BinIndex
  import opened BinMaps
  import opened HeapLayout
  import opened HeapTrie
  import opened HeapBins
  import opened HeapRings
  import opened Words

  /** The cells written when r is linked in at position p. */
  ghost predicate LinkCell(a: Seating, p: Pos, r: nat, c: Cell) {
    || c == Slot(a, p)
    || c == Parent(r) || c == Child(r, 0) || c == Child(r, 1) || c == Index(r)
    || (Down(p, 0) in a && c == Parent(a[Down(p, 0)]))
    || (Down(p, 1) in a && c == Parent(a[Down(p, 1)]))
  }

  /** Bin cells keep their words except where r is linked in at p and on the ring cells in the two exceptions. */
  ghost predicate OnlyLinked(l: Layout, z: Bins, a: Seating, m: Memory, m': Memory, p: Pos, r: nat, e: Cell, f: Cell) {
    forall c {:trigger Get(m', c)} ::
      BinCell(l, z, c) && !LinkCell(a, p, r, c) && c != e && c != f ==> Get(m', c) == Get(m, c)
  }

  /** a is a well-formed part of the seating of z. */
  ghost predicate SeatsBinned(l: Layout, z: Bins, a: Seating) {
    && (forall q :: q in a ==> q in z.tree && SeatBinned(l, z, q) && a[q] == Front(z, z.tree[q]))
    && Seated(a)
  }

  lemma AllSeats(l: Layout, z: Bins)
    requires LayoutOk(l) && RingsOk(l, z) && TreeShape(z)
    ensures SeatsBinned(l, z, Seats(z)) && Seats(z).Keys == z.tree.Keys
  {
    hide LayoutOk, RingsOk, TreeShape, Seats, Seated, SeatBinned, Front;
    SeatsOk(l, z);
    SeatsKeys(z);
  }

  lemma SeatsKeys(z: Bins)
    ensures Seats(z).Keys == z.tree.Keys
    ensures forall q :: q in z.tree ==> Seats(z)[q] == Front(z, z.tree[q])
  {}

  lemma SeatedPart(l: Layout, z: Bins, a: Seating)
    requires SeatsBinned(l, z, a)
    ensures Seated(a)
  {}

  /** A chunk outside the bins, or behind the front of its ring, has no seat. */
  lemma NotASeat(l: Layout, z: Bins, a: Seating, x: nat)
    requires SeatsBinned(l, z, a) && x !in z.binned
    ensures x !in a.Values
  {
    hide Seated;
    forall q | q in a ensures a[q] != x { assert SeatBinned(l, z, q); }
  }

  /** Seen from the seats, only the slot of p and its children's parent fields may have changed. */
  lemma SeatCells(l: Layout, z: Bins, a: Seating, m: Memory, m': Memory, p: Pos, r: nat, e: Cell, f: Cell)
    requires SeatsBinned(l, z, a)
    requires OnlyLinked(l, z, a, m, m', p, r, e, f) && IsRingCell(e) && IsRingCell(f)
    requires forall q :: q in a && q != p ==> a[q] != r
    requires Reachable(a, p)
    ensures SeatCellsSame(m, m', a, p)
  {
    forall b | 0 <= b < NTREEBINS && Root(b) != Slot(a, p) ensures Get(m', Root(b)) == Get(m, Root(b)) {
      RootKept(l, z, a, m, m', p, r, e, f, b);
    }
    hide Get, Seated, Up, Down, Seats, OnlyLinked, Reachable, SeatBinned;
    forall q | q in a && q != p ensures SeatKept(m, m', a, p, q) {
      OneSeat(l, z, a, m, m', p, r, e, f, q);
    }
  }

  lemma RootKept(l: Layout, z: Bins, a: Seating, m: Memory, m': Memory, p: Pos, r: nat, e: Cell, f: Cell, b: nat)
    requires OnlyLinked(l, z, a, m, m', p, r, e, f) && IsRingCell(e) && IsRingCell(f)
    requires b < NTREEBINS && Root(b) != Slot(a, p)
    ensures Get(m', Root(b)) == Get(m, Root(b))
  {
    assert BinCell(l, z, Root(b));
    hide Get;
  }

  ghost predicate SeatKept(m: Memory, m': Memory, a: Seating, p: Pos, q: Pos)
    requires q in a
  {
    && (forall i :: 0 <= i < 2 && Child(a[q], i) != Slot(a, p) ==> Get(m', Child(a[q], i)) == Get(m, Child(a[q], i)))
    && (q != Down(p, 0) && q != Down(p, 1) ==> Get(m', Parent(a[q])) == Get(m, Parent(a[q])))
    && Get(m', Index(a[q])) == Get(m, Index(a[q]))
  }

  lemma OneSeat(l: Layout, z: Bins, a: Seating, m: Memory, m': Memory, p: Pos, r: nat, e: Cell, f: Cell, q: Pos)
    requires OnlyLinked(l, z, a, m, m', p, r, e, f) && IsRingCell(e) && IsRingCell(f)
    requires Seated(a) && Reachable(a, p)
    requires q in z.tree && q in a && q != p && SeatBinned(l, z, q) && a[q] == Front(z, z.tree[q]) && a[q] != r
    ensures SeatKept(m, m', a, p, q)
  {
    var x := a[q];
    assert BinCell(l, z, Child(x, 0)) && BinCell(l, z, Child(x, 1)) && BinCell(l, z, Parent(x));
    assert BinCell(l, z, Index(x));
    hide BinCell, Get, Seats, SeatBinned, Up, Down;
    forall i | 0 <= i < 2 && Child(x, i) != Slot(a, p) ensures Get(m', Child(x, i)) == Get(m, Child(x, i)) {
      assert !LinkCell(a, p, r, Child(x, i));
    }
    if q != Down(p, 0) && q != Down(p, 1) {
      assert !LinkCell(a, p, r, Parent(x));
    }
    assert !LinkCell(a, p, r, Index(x)) by { assert Slot(a, p).Root? || Slot(a, p).Child?; }
  }

  /** A ring none of whose chunks owns the exception cells keeps its links. */
  lemma RingKept(l: Layout, z: Bins, a: Seating, m: Memory, m': Memory, p: Pos, r: nat, e: Cell, f: Cell, t: nat)
    requires RingsOk(l, z) && OnlyLinked(l, z, a, m, m', p, r, e, f)
    requires IsRingCell(e) && IsRingCell(f) && t in z.rings && e.at !in z.rings[t] && f.at !in z.rings[t]
    requires RingLinked(m, z.rings[t])
    ensures RingLinked(m', z.rings[t])
  {
    var q := z.rings[t];
    forall k | 0 <= k < |q| ensures Get(m', Fd(q[k])) == Get(m, Fd(q[k])) && Get(m', Bk(q[k])) == Get(m, Bk(q[k])) {
      RingCells(l, z, t, k);
      assert q[k] in q;
      hide RingsOk, Get, BinCell, Seats;
      NotLinkCell(a, p, r, Fd(q[k]));
      NotLinkCell(a, p, r, Bk(q[k]));
    }
    hide OnlyLinked, RingsOk, Get;
    forall k | 0 <= k < |q| ensures LinkedAt(m', q, k) { assert LinkedAt(m, q, k); }
  }

  lemma NotLinkCell(a: Seating, p: Pos, r: nat, c: Cell)
    requires IsRingCell(c)
    ensures !LinkCell(a, p, r, c)
  {}

  /** A chunk that is on a ring but not in a trie keeps its null links. */
  lemma ChainKept(l: Layout, z: Bins, a: Seating, m: Memory, m': Memory, p: Pos, r: nat, e: Cell, f: Cell, t: nat,
                  j: nat)
    requires RingsOk(l, z) && TreeShape(z) && SeatsBinned(l, z, a) && OnlyLinked(l, z, a, m, m', p, r, e, f)
    requires IsRingCell(e) && IsRingCell(f) && Reachable(a, p)
    requires t in z.pos && t in z.rings && 0 < j < |z.rings[t]| && z.rings[t][j] != r
    requires ChainedWords(m, z, t, z.rings[t][j])
    ensures ChainedWords(m', z, t, z.rings[t][j])
  {
    hide *;
    var c := z.rings[t][j];
    NodeFacts(z, t);
    RingCells(l, z, t, j);
    forall q | q in a ensures a[q] != c { SeatNotChained(l, z, a, t, j, q); }
    NotLinked(a, p, r, c);
    ChainedMove(l, z, a, m, m', p, r, e, f, t, c);
  }

  lemma NodeFacts(z: Bins, t: nat)
    requires TreeShape(z) && t in z.pos
    ensures t in z.rings && !IsSmall(t)
  {
    hide PosOk;
    assert NodeOk(z, t);
  }

  lemma ChainedMove(l: Layout, z: Bins, a: Seating, m: Memory, m': Memory, p: Pos, r: nat, e: Cell, f: Cell, t: nat,
                    c: nat)
    requires OnlyLinked(l, z, a, m, m', p, r, e, f) && IsRingCell(e) && IsRingCell(f)
    requires forall d :: d in {Child(c, 0), Child(c, 1), Parent(c), Index(c)} ==> BinCell(l, z, d)
    requires !LinkCell(a, p, r, Child(c, 0)) && !LinkCell(a, p, r, Child(c, 1))
    requires !LinkCell(a, p, r, Parent(c)) && !LinkCell(a, p, r, Index(c))
    requires t in z.pos && ChainedWords(m, z, t, c)
    ensures ChainedWords(m', z, t, c)
  {
    hide Get, BinCell, LinkCell, Seats;
  }

  lemma NotLinked(a: Seating, p: Pos, r: nat, c: nat)
    requires c != r && Reachable(a, p)
    requires forall q :: q in a ==> a[q] != c
    ensures !LinkCell(a, p, r, Child(c, 0)) && !LinkCell(a, p, r, Child(c, 1))
    ensures !LinkCell(a, p, r, Parent(c)) && !LinkCell(a, p, r, Index(c))
  {}

  lemma SeatNotChained(l: Layout, z: Bins, a: Seating, t: nat, j: nat, q: Pos)
    requires RingsOk(l, z) && SeatsBinned(l, z, a) && q in a && t in z.rings && 0 < j < |z.rings[t]|
    ensures a[q] != z.rings[t][j]
  {
    assert SeatBinned(l, z, q);
    assert RingOk(z, t);
    var s := z.tree[q];
    if s != t { OtherRing(l, z, s, t); }
  }

  // ----- a new node

  ghost function NewNode(z: Bins, p: Pos, s: nat, x: nat): Bins {
    Bins(z.rings[s := [x]], z.binned + {x}, z.tree[p := s], z.pos[s := p])
  }

  lemma NewNodeRings(l: Layout, z: Bins, p: Pos, s: nat, x: nat)
    requires RingsOk(l, z) && s !in z.rings && !IsSmall(s) && FreeOfSize(l, x, s) && x !in z.binned
    ensures RingsOk(l, NewNode(z, p, s, x))
  {
    var z' := NewNode(z, p, s, x);
    forall c | c in z'.binned ensures MemberOk(l, z', c) {
      if c != x { assert MemberOk(l, z, c); } else { assert z'.rings[s][0] == x; }
    }
    forall t, k | OnRing(z', t, k) ensures z'.rings[t][k] in z'.binned && FreeOfSize(l, z'.rings[t][k], t) {
      if t != s { assert OnRing(z, t, k); }
    }
    forall t | t in z'.rings ensures RingOk(z', t) { if t != s { assert RingOk(z, t); } }
  }

  lemma NewNodeShape(z: Bins, p: Pos, s: nat, x: nat)
    requires TreeShape(z) && s !in z.rings && !IsSmall(s) && p !in z.tree && PosOk(s, p)
    requires p.depth > 0 ==> Up(p) in z.tree
    ensures TreeShape(NewNode(z, p, s, x)) && s !in z.pos
  {
    var z' := NewNode(z, p, s, x);
    hide PosOk, Up;
    assert s in z.pos ==> NodeOk(z, s);
    forall t | t in z'.pos ensures NodeOk(z', t) { if t != s { assert NodeOk(z, t); } }
    forall q | q in z'.tree && q.depth > 0 ensures Up(q) in z'.tree { if q != p { assert Up(q) in z.tree; } }
  }

  lemma NewNodeSeats(z: Bins, p: Pos, s: nat, x: nat)
    requires TreeShape(z) && s !in z.rings
    ensures Seats(NewNode(z, p, s, x)) == Seats(z)[p := x]
  {
    var z' := NewNode(z, p, s, x);
    hide PosOk;
    forall q | q in z.tree ensures z.tree[q] != s { assert NodeOk(z, z.tree[q]); }
  }

  lemma {:induction false} NewNodeOk(l: Layout, z: Bins, m: Memory, m': Memory, smallmap: bv32, treemap: bv32,
                                     treemap': bv32, p: Pos, s: nat, x: nat)
    requires LayoutOk(l) && BinsOk(l, m, smallmap, treemap, z)
    requires s !in z.rings && !IsSmall(s) && FreeOfSize(l, x, s) && x !in z.binned && x > 0
    requires p !in z.tree && PosOk(s, p) && Reachable(Seats(z), p)
    requires Get(m', Fd(x)) == x && Get(m', Bk(x)) == x
    requires LinkedIn(m', Seats(z), p, x) && OnlyLinked(l, z, Seats(z), m, m', p, x, Fd(x), Bk(x))
    requires treemap' == if p.depth == 0 then Mark(treemap, p.bin) else treemap
    ensures BinsOk(l, m', smallmap, treemap', NewNode(z, p, s, x))
  {
    hide LayoutOk, RingsOk, LinksOk, TreeShape, WordsOk, ChainsOk, MapsOk, PosOk, LinkedIn, OnlyLinked, SeatsBinned,
      Seats, Mark, Reachable, NewNode, FreeOfSize;
    AllSeats(l, z);
    NewNodeRings(l, z, p, s, x);
    ReachableUp(Seats(z), z.tree, p);
    NewNodeShape(z, p, s, x);
    NewNodeSeats(z, p, s, x);
    NotASeat(l, z, Seats(z), x);
    SeatCells(l, z, Seats(z), m, m', p, x, Fd(x), Bk(x));
    SeatedPart(l, z, Seats(z));
    SetSeat(m, m', Seats(z), p, x);
    NewNodeLinks(l, z, m, m', p, s, x);
    FreeIsNoHeader(l, x, s);
    NewNodeChains(l, z, m, m', p, s, x);
    NewNodeMaps(l, z, smallmap, treemap, treemap', p, s, x);
  }

  lemma ReachableUp(a: Seating, t: map<Pos, nat>, p: Pos)
    requires Reachable(a, p) && a.Keys == t.Keys
    ensures p.depth > 0 ==> Up(p) in t
  {}

  lemma FreeIsNoHeader(l: Layout, x: nat, s: nat)
    requires FreeOfSize(l, x, s)
    ensures !IsHeader(x)
  {}

  lemma NewNodeLinks(l: Layout, z: Bins, m: Memory, m': Memory, p: Pos, s: nat, x: nat)
    requires RingsOk(l, z) && LinksOk(m, z) && s !in z.rings && FreeOfSize(l, x, s) && x !in z.binned
    requires Get(m', Fd(x)) == x && Get(m', Bk(x)) == x
    requires OnlyLinked(l, z, Seats(z), m, m', p, x, Fd(x), Bk(x))
    ensures LinksOk(m', NewNode(z, p, s, x))
  {
    var z' := NewNode(z, p, s, x);
    forall t | t in z'.rings && (|z'.rings[t]| > 1 || !IsSmall(t)) ensures RingLinked(m', z'.rings[t]) {
      if t == s {
        assert LinkedAt(m', [x], 0);
      } else {
        NotOnRings(l, z, x, t);
        hide OnlyLinked, Get, RingsOk, RingLinked;
        RingKept(l, z, Seats(z), m, m', p, x, Fd(x), Bk(x), t);
      }
    }
  }

  lemma NotOnRings(l: Layout, z: Bins, x: nat, t: nat)
    requires RingsOk(l, z) && x !in z.binned && !IsHeader(x) && t in z.rings
    ensures x !in z.rings[t]
  {
    forall k | 0 <= k < |z.rings[t]| ensures z.rings[t][k] != x {
      if OnRing(z, t, k) { assert z.rings[t][k] in z.binned; } else { NotHeader(l, z, t, k); }
    }
  }

  lemma NewNodeChains(l: Layout, z: Bins, m: Memory, m': Memory, p: Pos, s: nat, x: nat)
    requires RingsOk(l, z) && TreeShape(z) && SeatsBinned(l, z, Seats(z)) && ChainsOk(m, z) && s !in z.rings
    requires s !in z.pos
    requires x !in z.binned && !IsHeader(x) && Reachable(Seats(z), p)
    requires OnlyLinked(l, z, Seats(z), m, m', p, x, Fd(x), Bk(x))
    ensures ChainsOk(m', NewNode(z, p, s, x))
  {
    var z' := NewNode(z, p, s, x);
    hide OnlyLinked, Get, RingsOk, TreeShape, SeatsBinned, Seats, Reachable;
    forall t, j | t in z'.pos && t in z'.rings && 0 < j < |z'.rings[t]|
      ensures ChainedWords(m', z', t, z'.rings[t][j])
    {
      NotOnRings(l, z, x, t);
      ChainKept(l, z, Seats(z), m, m', p, x, Fd(x), Bk(x), t, j);
    }
  }

  lemma NewNodeMaps(l: Layout, z: Bins, smallmap: bv32, treemap: bv32, treemap': bv32, p: Pos, s: nat, x: nat)
    requires MapsOk(smallmap, treemap, z) && !IsSmall(s) && Reachable(Seats(z), p)
    requires treemap' == if p.depth == 0 then Mark(treemap, p.bin) else treemap
    ensures MapsOk(smallmap, treemap', NewNode(z, p, s, x))
  {
    hide Mark, Marked;
    var z' := NewNode(z, p, s, x);
    forall i | 0 <= i < NBINS ensures 8 * i in z'.rings && (Marked(smallmap, i) <==> |z'.rings[8 * i]| > 1) {}
    forall b | 0 <= b < NTREEBINS ensures Marked(treemap', b) <==> RootPos(b) in z'.tree {
      if p.depth == 0 { MarkClear(treemap, p.bin, b); }
    }
  }

  // ----- the last chunk of a ring takes over the node

  ghost function Promote(z: Bins, s: nat): Bins
    requires s in z.rings && |z.rings[s]| > 1
  {
    z.(rings := z.rings[s := Promoted(z.rings[s])], binned := z.binned - {z.rings[s][0]})
  }

  function LastOf(z: Bins, s: nat): nat
    requires s in z.rings && |z.rings[s]| > 1
  {
    z.rings[s][|z.rings[s]| - 1]
  }

  lemma PromoteRings(l: Layout, z: Bins, s: nat)
    requires RingsOk(l, z) && s in z.rings && |z.rings[s]| > 1 && !IsSmall(s)
    ensures RingsOk(l, Promote(z, s))
  {
    assert RingOk(z, s);
    var r, z' := z.rings[s], Promote(z, s);
    var q := z'.rings[s];
    assert OnRing(z, s, 0);
    forall k | 0 <= k < |q| ensures q[k] == r[if k == 0 then |r| - 1 else k] {}
    forall c | c in z'.binned ensures MemberOk(l, z', c) {
      assert MemberOk(l, z, c);
      if l.chunks[c].size == s { KeepsPromoted(r, c); }
    }
    forall t, k | OnRing(z', t, k) ensures z'.rings[t][k] in z'.binned && FreeOfSize(l, z'.rings[t][k], t) {
      if t == s { assert OnRing(z, s, if k == 0 then |r| - 1 else k); } else { assert OnRing(z, t, k); }
    }
    forall t | t in z'.rings ensures RingOk(z', t) { assert RingOk(z, t); }
  }

  lemma KeepsPromoted(r: seq<nat>, c: nat)
    requires |r| > 1 && c in r && c != r[0]
    ensures c in Promoted(r)
  {
    var k :| 0 <= k < |r| && r[k] == c;
    assert Promoted(r)[if k == |r| - 1 then 0 else k] == c;
  }

  lemma PromoteShape(z: Bins, s: nat)
    requires TreeShape(z) && s in z.pos && s in z.rings && |z.rings[s]| > 1
    ensures TreeShape(Promote(z, s)) && Seats(Promote(z, s)) == Seats(z)[z.pos[s] := LastOf(z, s)]
  {
    var z' := Promote(z, s);
    hide PosOk, Up;
    assert NodeOk(z, s);
    forall t | t in z'.pos ensures NodeOk(z', t) { assert NodeOk(z, t); }
    forall q | q in z.tree && q != z.pos[s] ensures z.tree[q] != s && z.tree[q] in z.rings {
      assert NodeOk(z, z.tree[q]);
    }
  }

  lemma {:induction false} PromoteOk(l: Layout, z: Bins, m: Memory, m': Memory, smallmap: bv32, treemap: bv32, s: nat)
    requires LayoutOk(l) && BinsOk(l, m, smallmap, treemap, z)
    requires s in z.rings && |z.rings[s]| > 1 && s in z.pos
    requires var r, p := LastOf(z, s), z.pos[s];
      && Get(m', Fd(r)) == z.rings[s][1] && Get(m', Bk(z.rings[s][1])) == r
      && LinkedIn(m', Seats(z), p, r) && OnlyLinked(l, z, Seats(z), m, m', p, r, Fd(r), Bk(z.rings[s][1]))
    ensures BinsOk(l, m', smallmap, treemap, Promote(z, s))
  {
    hide LayoutOk, RingsOk, LinksOk, TreeShape, WordsOk, ChainsOk, MapsOk, LinkedIn, OnlyLinked, SeatsBinned, Seats,
      Reachable, Promote, LastOf;
    NodeFacts(z, s);
    var r, p := LastOf(z, s), z.pos[s];
    AllSeats(l, z);
    SeatedPart(l, z, Seats(z));
    PromoteRings(l, z, s);
    PromoteShape(z, s);
    LastNotSeated(l, z, s);
    PosReachable(l, z, s);
    SeatCells(l, z, Seats(z), m, m', p, r, Fd(r), Bk(z.rings[s][1]));
    LastPositive(l, z, s);
    SetSeat(m, m', Seats(z), p, r);
    PromoteLinks(l, z, m, m', s);
    PromoteChains(l, z, m, m', s);
    PromoteMaps(z, smallmap, treemap, s);
  }

  lemma LastNotSeated(l: Layout, z: Bins, s: nat)
    requires RingsOk(l, z) && SeatsBinned(l, z, Seats(z)) && s in z.rings && |z.rings[s]| > 1
    ensures LastOf(z, s) !in Seats(z).Values
  {
    hide RingsOk, SeatsBinned, Seats;
    forall q | q in Seats(z) ensures Seats(z)[q] != LastOf(z, s) {
      SeatNotChained(l, z, Seats(z), s, |z.rings[s]| - 1, q);
    }
  }

  lemma LastPositive(l: Layout, z: Bins, s: nat)
    requires LayoutOk(l) && RingsOk(l, z) && s in z.rings && |z.rings[s]| > 1
    ensures LastOf(z, s) > 0 && LastOf(z, s) in l.chunks
  {
    assert OnRing(z, s, |z.rings[s]| - 1);
    ChunkPositive(l, LastOf(z, s));
  }

  lemma PosReachable(l: Layout, z: Bins, s: nat)
    requires TreeShape(z) && SeatsBinned(l, z, Seats(z)) && Seats(z).Keys == z.tree.Keys && s in z.pos
    ensures z.pos[s] in Seats(z) && z.pos[s] in z.tree && Reachable(Seats(z), z.pos[s])
    ensures z.pos[s].bin < NTREEBINS
  {
    hide PosOk, Seats;
    assert NodeOk(z, s);
  }

  lemma PromoteLinks(l: Layout, z: Bins, m: Memory, m': Memory, s: nat)
    requires RingsOk(l, z) && LinksOk(m, z) && s in z.rings && |z.rings[s]| > 1 && !IsSmall(s) && s in z.pos
    requires var r, p := LastOf(z, s), z.pos[s];
      && Get(m', Fd(r)) == z.rings[s][1] && Get(m', Bk(z.rings[s][1])) == r
      && OnlyLinked(l, z, Seats(z), m, m', p, r, Fd(r), Bk(z.rings[s][1]))
    ensures LinksOk(m', Promote(z, s))
  {
    var z', r := Promote(z, s), z.rings[s];
    forall t | t in z'.rings && (|z'.rings[t]| > 1 || !IsSmall(t)) ensures RingLinked(m', z'.rings[t]) {
      hide OnlyLinked, Get, RingsOk, RingLinked, Promoted, Seats;
      if t == s {
        PromoteThis(l, z, m, m', s);
      } else {
        OtherRing(l, z, s, t);
        assert r[1] !in z.rings[t] && r[|r| - 1] !in z.rings[t];
        RingKept(l, z, Seats(z), m, m', z.pos[s], LastOf(z, s), Fd(LastOf(z, s)), Bk(r[1]), t);
      }
    }
  }

  lemma PromoteThis(l: Layout, z: Bins, m: Memory, m': Memory, s: nat)
    requires RingsOk(l, z) && s in z.rings && |z.rings[s]| > 1 && s in z.pos && RingLinked(m, z.rings[s])
    requires var r, p := LastOf(z, s), z.pos[s];
      && Get(m', Fd(r)) == z.rings[s][1] && Get(m', Bk(z.rings[s][1])) == r
      && OnlyLinked(l, z, Seats(z), m, m', p, r, Fd(r), Bk(z.rings[s][1]))
    ensures RingLinked(m', Promoted(z.rings[s]))
  {
    var q := z.rings[s];
    assert RingOk(z, s);
    forall k | 0 <= k < |q| ensures BinCell(l, z, Fd(q[k])) && BinCell(l, z, Bk(q[k])) { RingCells(l, z, s, k); }
    hide RingsOk, BinCell, RingLinked, Promoted, Get, Seats;
    forall k | 0 <= k < |q|
      ensures !LinkCell(Seats(z), z.pos[s], LastOf(z, s), Fd(q[k]))
        && !LinkCell(Seats(z), z.pos[s], LastOf(z, s), Bk(q[k]))
    {
      NotLinkCell(Seats(z), z.pos[s], LastOf(z, s), Fd(q[k]));
      NotLinkCell(Seats(z), z.pos[s], LastOf(z, s), Bk(q[k]));
    }
    hide LinkCell;
    PromoteLinked(m, m', q);
  }

  lemma PromoteChains(l: Layout, z: Bins, m: Memory, m': Memory, s: nat)
    requires RingsOk(l, z) && TreeShape(z) && SeatsBinned(l, z, Seats(z)) && ChainsOk(m, z)
    requires s in z.rings && |z.rings[s]| > 1 && s in z.pos && Reachable(Seats(z), z.pos[s])
    requires OnlyLinked(l, z, Seats(z), m, m', z.pos[s], LastOf(z, s), Fd(LastOf(z, s)), Bk(z.rings[s][1]))
    ensures ChainsOk(m', Promote(z, s))
  {
    var z', r := Promote(z, s), z.rings[s];
    assert RingOk(z, s);
    hide OnlyLinked, Get, RingsOk, TreeShape, SeatsBinned, Seats, Reachable;
    forall t, j | t in z'.pos && t in z'.rings && 0 < j < |z'.rings[t]|
      ensures ChainedWords(m', z', t, z'.rings[t][j])
    {
      assert ChainedWords(m, z, t, z.rings[t][j]);
      if t == s { assert r[j] != r[|r| - 1]; } else { OtherRing(l, z, s, t); }
      ChainKept(l, z, Seats(z), m, m', z.pos[s], LastOf(z, s), Fd(LastOf(z, s)), Bk(r[1]), t, j);
    }
  }

  lemma PromoteMaps(z: Bins, smallmap: bv32, treemap: bv32, s: nat)
    requires MapsOk(smallmap, treemap, z) && !IsSmall(s) && s in z.rings && |z.rings[s]| > 1
    ensures MapsOk(smallmap, treemap, Promote(z, s))
  {
    hide Marked;
    var z' := Promote(z, s);
    forall i | 0 <= i < NBINS ensures 8 * i in z'.rings && (Marked(smallmap, i) <==> |z'.rings[8 * i]| > 1) {}
  }

  // ----- a leaf leaves its trie

  ghost function RemoveNode(z: Bins, s: nat): Bins
    requires s in z.pos && s in z.rings && |z.rings[s]| > 0
  {
    Bins(z.rings - {s}, z.binned - {z.rings[s][0]}, z.tree - {z.pos[s]}, z.pos - {s})
  }

  lemma RemoveRings(l: Layout, z: Bins, s: nat)
    requires RingsOk(l, z) && s in z.rings && |z.rings[s]| == 1 && !IsSmall(s)
    ensures var z' := z.(rings := z.rings - {s}, binned := z.binned - {z.rings[s][0]}, pos := z.pos - {s});
      RingsOk(l, z')
  {
    var x := z.rings[s][0];
    var z' := z.(rings := z.rings - {s}, binned := z.binned - {x}, pos := z.pos - {s});
    assert OnRing(z, s, 0);
    forall c | c in z'.binned ensures MemberOk(l, z', c) { assert MemberOk(l, z, c); }
    forall t, k | OnRing(z', t, k) ensures z'.rings[t][k] in z'.binned && FreeOfSize(l, z'.rings[t][k], t) {
      assert OnRing(z, t, k);
    }
    forall t | t in z'.rings ensures RingOk(z', t) { assert RingOk(z, t); }
  }

  lemma RemoveShape(z: Bins, s: nat)
    requires TreeShape(z) && s in z.pos && s in z.rings && |z.rings[s]| > 0
    requires Down(z.pos[s], 0) !in z.tree && Down(z.pos[s], 1) !in z.tree
    ensures TreeShape(RemoveNode(z, s))
  {
    var z' := RemoveNode(z, s);
    forall t | t in z'.pos ensures NodeOk(z', t) { RemoveNodes(z, s, t); }
    forall q | q in z'.tree ensures z'.tree[q] in z'.pos && z'.pos[z'.tree[q]] == q { RemoveTree(z, s, q); }
    forall q | q in z'.tree && q.depth > 0 ensures Up(q) in z'.tree { RemoveParents(z, s, q); }
    hide *;
  }

  lemma RemoveNodes(z: Bins, s: nat, t: nat)
    requires TreeShape(z) && s in z.pos && s in z.rings && |z.rings[s]| > 0 && t in RemoveNode(z, s).pos
    ensures NodeOk(RemoveNode(z, s), t)
  {
    hide PosOk, Up, Down;
    assert NodeOk(z, s) && NodeOk(z, t);
    assert z.tree[z.pos[s]] == s;
  }

  lemma RemoveTree(z: Bins, s: nat, q: Pos)
    requires TreeShape(z) && s in z.pos && s in z.rings && |z.rings[s]| > 0 && q in RemoveNode(z, s).tree
    ensures var z' := RemoveNode(z, s); z'.tree[q] in z'.pos && z'.pos[z'.tree[q]] == q
  {
    hide PosOk, Up, Down;
    assert NodeOk(z, s);
    assert z.tree[q] in z.pos;
  }

  lemma RemoveParents(z: Bins, s: nat, q: Pos)
    requires TreeShape(z) && s in z.pos && s in z.rings && |z.rings[s]| > 0 && q in RemoveNode(z, s).tree && q.depth > 0
    requires Down(z.pos[s], 0) !in z.tree && Down(z.pos[s], 1) !in z.tree
    ensures Up(q) in RemoveNode(z, s).tree
  {
    hide PosOk, Up, Down;
    assert NodeOk(z, s) && Up(q) in z.tree;
    ParentIs(z.tree, z.pos[s], q);
  }

  lemma RemoveSeats(z: Bins, s: nat)
    requires TreeShape(z) && s in z.pos && s in z.rings && |z.rings[s]| > 0
    ensures Seats(RemoveNode(z, s)) == Seats(z) - {z.pos[s]}
  {
    hide TreeShape, PosOk, Up, Down;
    var z', p := RemoveNode(z, s), z.pos[s];
    forall q | q in z.tree && q != p ensures z.tree[q] != s && z.tree[q] in z.rings { SeatOther(z, s, q); }
  }

  lemma SeatOther(z: Bins, s: nat, q: Pos)
    requires TreeShape(z) && s in z.pos && q in z.tree && q != z.pos[s]
    ensures z.tree[q] != s && z.tree[q] in z.rings
  {
    hide PosOk, Up, Down;
    assert NodeOk(z, z.tree[q]);
  }

  lemma {:induction false} RemoveNodeOk(l: Layout, z: Bins, m: Memory, m': Memory, smallmap: bv32, treemap: bv32,
                                        treemap': bv32, s: nat)
    requires LayoutOk(l) && BinsOk(l, m, smallmap, treemap, z)
    requires s in z.pos && s in z.rings && |z.rings[s]| == 1
    requires Down(z.pos[s], 0) !in z.tree && Down(z.pos[s], 1) !in z.tree
    requires var x, p := z.rings[s][0], z.pos[s];
      && Get(m', Slot(Seats(z), p)) == 0
      && OnlyLinked(l, z, Seats(z), m, m', p, x, Fd(x), Bk(x))
    requires treemap' == if z.pos[s].depth == 0 && z.pos[s].bin < NTREEBINS then Clear(treemap, z.pos[s].bin)
      else treemap
    ensures BinsOk(l, m', smallmap, treemap', RemoveNode(z, s))
  {
    hide LayoutOk, RingsOk, LinksOk, TreeShape, WordsOk, ChainsOk, MapsOk, OnlyLinked, SeatsBinned, Seats, Reachable,
      Clear;
    NodeFacts(z, s);
    var x, p := z.rings[s][0], z.pos[s];
    AllSeats(l, z);
    SeatedPart(l, z, Seats(z));
    RemoveRings(l, z, s);
    RemoveFrontRings(l, z, s);
    RemoveShape(z, s);
    RemoveSeats(z, s);
    PosReachable(l, z, s);
    FrontSeat(l, z, s);
    SeatCells(l, z, Seats(z), m, m', p, x, Fd(x), Bk(x));
    ClearSeat(m, m', Seats(z), p);
    RemoveLinks(l, z, m, m', p, s);
    RemoveChains(l, z, m, m', s);
    RemoveMaps(l, z, smallmap, treemap, treemap', s);
  }

  lemma RemoveFrontRings(l: Layout, z: Bins, s: nat)
    requires s in z.pos && s in z.rings && |z.rings[s]| > 0
    requires RingsOk(l, z.(rings := z.rings - {s}, binned := z.binned - {z.rings[s][0]}, pos := z.pos - {s}))
    ensures RingsOk(l, RemoveNode(z, s))
  {
    var y, z' := z.(rings := z.rings - {s}, binned := z.binned - {z.rings[s][0]}, pos := z.pos - {s}), RemoveNode(z, s);
    forall c | c in z'.binned ensures MemberOk(l, z', c) { assert MemberOk(l, y, c); }
    forall t, k | OnRing(z', t, k) ensures z'.rings[t][k] in z'.binned && FreeOfSize(l, z'.rings[t][k], t) {
      assert OnRing(y, t, k);
    }
    forall t | t in z'.rings ensures RingOk(z', t) { assert RingOk(y, t); }
  }

  /** Only its own position seats the front of a ring. */
  lemma FrontSeat(l: Layout, z: Bins, s: nat)
    requires TreeShape(z) && SeatsBinned(l, z, Seats(z)) && s in z.pos && s in z.rings && |z.rings[s]| > 0
    requires Seats(z).Keys == z.tree.Keys
    ensures z.pos[s] in Seats(z) && Seats(z)[z.pos[s]] == z.rings[s][0]
    ensures forall q :: q in Seats(z) && q != z.pos[s] ==> Seats(z)[q] != z.rings[s][0]
  {
    hide PosOk;
    assert NodeOk(z, s);
  }

  lemma RemoveLinks(l: Layout, z: Bins, m: Memory, m': Memory, p: Pos, s: nat)
    requires RingsOk(l, z) && LinksOk(m, z) && s in z.rings && |z.rings[s]| == 1 && s in z.pos
    requires OnlyLinked(l, z, Seats(z), m, m', p, z.rings[s][0], Fd(z.rings[s][0]), Bk(z.rings[s][0]))
    ensures LinksOk(m', RemoveNode(z, s))
  {
    var z' := RemoveNode(z, s);
    forall t | t in z'.rings && (|z'.rings[t]| > 1 || !IsSmall(t)) ensures RingLinked(m', z'.rings[t]) {
      hide OnlyLinked, Get, RingsOk, RingLinked, Seats;
      OtherRing(l, z, s, t);
      RingKept(l, z, Seats(z), m, m', p, z.rings[s][0], Fd(z.rings[s][0]), Bk(z.rings[s][0]), t);
    }
  }

  lemma RemoveChains(l: Layout, z: Bins, m: Memory, m': Memory, s: nat)
    requires RingsOk(l, z) && TreeShape(z) && SeatsBinned(l, z, Seats(z)) && ChainsOk(m, z)
    requires s in z.rings && |z.rings[s]| == 1 && s in z.pos && Reachable(Seats(z), z.pos[s])
    requires OnlyLinked(l, z, Seats(z), m, m', z.pos[s], z.rings[s][0], Fd(z.rings[s][0]), Bk(z.rings[s][0]))
    ensures ChainsOk(m', RemoveNode(z, s))
  {
    var z', x := RemoveNode(z, s), z.rings[s][0];
    hide OnlyLinked, Get, RingsOk, TreeShape, SeatsBinned, Seats, Reachable;
    forall t, j | t in z'.pos && t in z'.rings && 0 < j < |z'.rings[t]|
      ensures ChainedWords(m', z', t, z'.rings[t][j])
    {
      assert ChainedWords(m, z, t, z.rings[t][j]);
      OtherRing(l, z, s, t);
      ChainKept(l, z, Seats(z), m, m', z.pos[s], x, Fd(x), Bk(x), t, j);
    }
  }

  lemma RemoveMaps(l: Layout, z: Bins, smallmap: bv32, treemap: bv32, treemap': bv32, s: nat)
    requires MapsOk(smallmap, treemap, z) && !IsSmall(s) && s in z.pos && s in z.rings && |z.rings[s]| > 0
    requires Reachable(Seats(z), z.pos[s])
    requires treemap' == if z.pos[s].depth == 0 then Clear(treemap, z.pos[s].bin) else treemap
    ensures MapsOk(smallmap, treemap', RemoveNode(z, s))
  {
    hide Clear, Marked;
    var z', p := RemoveNode(z, s), z.pos[s];
    forall i | 0 <= i < NBINS ensures 8 * i in z'.rings && (Marked(smallmap, i) <==> |z'.rings[8 * i]| > 1) {}
    forall b | 0 <= b < NTREEBINS ensures Marked(treemap', b) <==> RootPos(b) in z'.tree {
      if p.depth == 0 { MarkClear(treemap, p.bin, b); }
    }
  }
}
