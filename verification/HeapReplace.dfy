/**
 * Removing the last chunk of a size from the interior of a trie: a leaf of its own subtree is taken from
 * its place and seated where the removed chunk was.
 */
module HeapReplace {
  import opened BinIndex
  import opened BinMaps
  import opened HeapLayout
  import opened HeapTrie
  import opened HeapBins
  import opened HeapRings
  import opened HeapNodes
  import opened Words

  /** s is the only size on its node and t is a leaf elsewhere that fits the node's position. */
  ghost predicate Replaceable(z: Bins, s: nat, t: nat) {
    && s in z.pos && s in z.rings && |z.rings[s]| == 1
    && t in z.pos && t in z.rings && |z.rings[t]| > 0 && t != s
    && Down(z.pos[t], 0) !in z.tree && Down(z.pos[t], 1) !in z.tree
    && PosOk(t, z.pos[s])
    && z.pos[t].depth > z.pos[s].depth && z.pos[t].bin == z.pos[s].bin
  }

  ghost function ReplaceByLeaf(z: Bins, s: nat, t: nat): Bins
    requires Replaceable(z, s, t)
  {
    Bins(z.rings - {s}, z.binned - {z.rings[s][0]}, (z.tree - {z.pos[t]})[z.pos[s] := t], (z.pos - {s})[t := z.pos[s]])
  }

  ghost function Without(z: Bins, t: nat): Seating
    requires t in z.pos
  {
    Seats(z) - {z.pos[t]}
  }

  lemma ReplaceShape(z: Bins, s: nat, t: nat)
    requires TreeShape(z) && Replaceable(z, s, t)
    ensures TreeShape(ReplaceByLeaf(z, s, t))
  {
    hide PosOk, Up, Down, NodeOk, ReplaceByLeaf;
    var z' := ReplaceByLeaf(z, s, t);
    forall u | u in z'.pos ensures NodeOk(z', u) { ReplaceNode(z, s, t, u); }
    forall u | u in z'.tree && u.depth > 0 ensures Up(u) in z'.tree { ReplaceUp(z, s, t, u); }
    forall u | u in z'.tree ensures z'.tree[u] in z'.pos && z'.pos[z'.tree[u]] == u { ReplaceBack(z, s, t, u); }
  }

  lemma ReplaceBack(z: Bins, s: nat, t: nat, u: Pos)
    requires TreeShape(z) && Replaceable(z, s, t) && u in ReplaceByLeaf(z, s, t).tree
    ensures var z' := ReplaceByLeaf(z, s, t); z'.tree[u] in z'.pos && z'.pos[z'.tree[u]] == u
  {
    hide PosOk, Up, Down, NodeOk;
    if u != z.pos[s] { assert z.tree[u] in z.pos; }
  }

  lemma ReplaceNode(z: Bins, s: nat, t: nat, u: nat)
    requires TreeShape(z) && Replaceable(z, s, t) && u in ReplaceByLeaf(z, s, t).pos
    ensures NodeOk(ReplaceByLeaf(z, s, t), u)
  {
    hide PosOk, Up, Down;
    assert NodeOk(z, s) && NodeOk(z, t);
    if u != t { assert NodeOk(z, u); }
  }

  lemma ReplaceUp(z: Bins, s: nat, t: nat, u: Pos)
    requires TreeShape(z) && Replaceable(z, s, t) && u in ReplaceByLeaf(z, s, t).tree && u.depth > 0
    ensures Up(u) in ReplaceByLeaf(z, s, t).tree
  {
    hide PosOk, Down;
    var q := z.pos[t];
    assert NodeOk(z, s);
    assert u in z.tree;
    assert Up(u) in z.tree;
    hide Up, TreeShape;
    ParentIs(z.tree, q, u);
  }

  lemma ReplaceSeats(z: Bins, s: nat, t: nat)
    requires TreeShape(z) && Replaceable(z, s, t)
    ensures Seats(ReplaceByLeaf(z, s, t)) == Without(z, t)[z.pos[s] := Front(z, t)]
  {
    var z', p, q := ReplaceByLeaf(z, s, t), z.pos[s], z.pos[t];
    hide PosOk, Up, Down, TreeShape;
    forall u | u in z.tree && u != p ensures z.tree[u] != s && z.tree[u] in z.rings { SeatOther(z, s, u); }
  }

  lemma ReplaceRings(l: Layout, z: Bins, s: nat, t: nat)
    requires RingsOk(l, z) && TreeShape(z) && Replaceable(z, s, t)
    ensures RingsOk(l, ReplaceByLeaf(z, s, t))
  {
    hide PosOk, TreeShape, Down;
    NodeFacts(z, s);
    RemoveRings(l, z, s);
    var y, z' := z.(rings := z.rings - {s}, binned := z.binned - {z.rings[s][0]}, pos := z.pos - {s}),
      ReplaceByLeaf(z, s, t);
    forall c | c in z'.binned ensures MemberOk(l, z', c) { assert MemberOk(l, y, c); }
    forall u, k | OnRing(z', u, k) ensures z'.rings[u][k] in z'.binned && FreeOfSize(l, z'.rings[u][k], u) {
      assert OnRing(y, u, k);
    }
    forall u | u in z'.rings ensures RingOk(z', u) { assert RingOk(y, u); }
  }

  /** The words written: the leaf's slot is cleared first, then the leaf is linked in at the position of s. */
  ghost predicate ReplacedCells(l: Layout, z: Bins, m: Memory, m1: Memory, m': Memory, s: nat, t: nat)
    requires Replaceable(z, s, t)
  {
    var x, r, p, q := z.rings[s][0], Front(z, t), z.pos[s], z.pos[t];
    && Get(m1, Slot(Seats(z), q)) == 0
    && (forall c {:trigger Get(m1, c)} :: BinCell(l, z, c) && c != Slot(Seats(z), q) ==> Get(m1, c) == Get(m, c))
    && LinkedIn(m', Without(z, t), p, r)
    && OnlyLinked(l, z, Without(z, t), m1, m', p, r, Fd(x), Bk(x))
  }

  lemma {:induction false} ReplaceOk(l: Layout, z: Bins, m: Memory, m1: Memory, m': Memory, smallmap: bv32,
                                     treemap: bv32, s: nat, t: nat)
    requires LayoutOk(l) && BinsOk(l, m, smallmap, treemap, z) && Replaceable(z, s, t)
    requires ReplacedCells(l, z, m, m1, m', s, t)
    ensures BinsOk(l, m', smallmap, treemap, ReplaceByLeaf(z, s, t))
  {
    hide LayoutOk, RingsOk, LinksOk, TreeShape, WordsOk, ChainsOk, MapsOk, LinkedIn, OnlyLinked, SeatsBinned, Seats,
      Reachable, ReplaceByLeaf, Replaceable, ReplacedCells, Front;
    ReplaceFacts(z, s, t);
    FirstPhase(l, z, m, m1, m', s, t);
    AllSeats(l, z);
    SeatedPart(l, z, Seats(z));
    PosReachable(l, z, s);
    PosReachable(l, z, t);
    FrontSeat(l, z, t);
    ReplaceSeatWords(l, z, m, m1, m', s, t);
    ReplaceRings(l, z, s, t);
    ReplaceShape(z, s, t);
    ReplaceLinks(l, z, m, m1, m', s, t);
    ReplaceChains(l, z, m, m1, m', s, t);
    ReplaceMaps(l, z, smallmap, treemap, s, t);
  }

  lemma ReplaceFacts(z: Bins, s: nat, t: nat)
    requires TreeShape(z) && Replaceable(z, s, t)
    ensures s in z.pos && s in z.rings && |z.rings[s]| == 1 && !IsSmall(s)
    ensures t in z.pos && t in z.rings && |z.rings[t]| > 0 && !IsSmall(t) && t != s
    ensures Front(z, t) == z.rings[t][0] && z.pos[t] != z.pos[s] && z.pos[t].bin == z.pos[s].bin
    ensures Down(z.pos[t], 0) !in z.tree && Down(z.pos[t], 1) !in z.tree
  {
    hide PosOk, Down;
    assert NodeOk(z, s) && NodeOk(z, t);
  }

  /** Clearing the leaf's slot, seen as a change at the leaf's position only. */
  lemma FirstPhase(l: Layout, z: Bins, m: Memory, m1: Memory, m': Memory, s: nat, t: nat)
    requires Replaceable(z, s, t) && ReplacedCells(l, z, m, m1, m', s, t)
    ensures var x := z.rings[s][0]; OnlyLinked(l, z, Seats(z), m, m1, z.pos[t], Front(z, t), Fd(x), Bk(x))
  {
    hide BinCell, Seats, Slot, Replaceable, LinkedIn, PosOk;
  }

  lemma ReplaceSeatWords(l: Layout, z: Bins, m: Memory, m1: Memory, m': Memory, s: nat, t: nat)
    requires LayoutOk(l) && RingsOk(l, z) && TreeShape(z) && WordsOk(m, Seats(z)) && Replaceable(z, s, t)
    requires ReplacedCells(l, z, m, m1, m', s, t)
    requires SeatsBinned(l, z, Seats(z)) && Seats(z).Keys == z.tree.Keys && Seated(Seats(z))
    requires Reachable(Seats(z), z.pos[s]) && Reachable(Seats(z), z.pos[t]) && z.pos[s] in z.tree && z.pos[t] in z.tree
    requires forall q :: q in Seats(z) && q != z.pos[t] ==> Seats(z)[q] != z.rings[t][0]
    requires Seats(z)[z.pos[t]] == z.rings[t][0] && Front(z, t) == z.rings[t][0]
    ensures WordsOk(m', Seats(ReplaceByLeaf(z, s, t)))
    ensures SeatsBinned(l, z, Without(z, t)) && Reachable(Without(z, t), z.pos[s])
  {
    var a, a1, p, q, r, x := Seats(z), Without(z, t), z.pos[s], z.pos[t], Front(z, t), z.rings[s][0];
    ReplaceSeats(z, s, t);
    FirstPhase(l, z, m, m1, m', s, t);
    WithoutReachable(z, s, t);
    hide LayoutOk, RingsOk, TreeShape, WordsOk, Seats, Reachable, OnlyLinked, SeatsBinned, Seated, LinkedIn, PosOk,
      Down, ReplaceByLeaf;
    SeatCells(l, z, a, m, m1, q, r, Fd(x), Bk(x));
    ClearSeat(m, m1, a, q);
    PartBinned(l, z, a, a1, q);
    SeatCells(l, z, a1, m1, m', p, r, Fd(x), Bk(x));
    NotInWithout(z, t, r);
    SeatPositive(a, q);
    SetSeat(m1, m', a1, p, r);
  }

  lemma SeatPositive(a: Seating, q: Pos)
    requires Seated(a) && q in a
    ensures a[q] > 0
  {}

  lemma NotInWithout(z: Bins, t: nat, r: nat)
    requires t in z.pos && forall q :: q in Seats(z) && q != z.pos[t] ==> Seats(z)[q] != r
    ensures r !in Without(z, t).Values
  {
    hide Seats;
    var a1 := Without(z, t);
    forall q | q in a1 ensures a1[q] != r { assert q in Seats(z); }
  }

  lemma PartBinned(l: Layout, z: Bins, a: Seating, a1: Seating, q: Pos)
    requires SeatsBinned(l, z, a) && a1 == a - {q} && Seated(a1)
    ensures SeatsBinned(l, z, a1)
  {
    hide Seated;
    forall u | u in a1 ensures u in z.tree && SeatBinned(l, z, u) && a1[u] == Front(z, z.tree[u]) {
      assert u in a;
      assert SeatBinned(l, z, u);
    }
  }

  lemma WithoutReachable(z: Bins, s: nat, t: nat)
    requires Replaceable(z, s, t) && Reachable(Seats(z), z.pos[s])
    ensures Reachable(Without(z, t), z.pos[s])
  {
    hide PosOk, Seats;
  }

  lemma ReplaceLinks(l: Layout, z: Bins, m: Memory, m1: Memory, m': Memory, s: nat, t: nat)
    requires RingsOk(l, z) && TreeShape(z) && LinksOk(m, z) && Replaceable(z, s, t)
    requires ReplacedCells(l, z, m, m1, m', s, t)
    ensures LinksOk(m', ReplaceByLeaf(z, s, t))
  {
    var z', x := ReplaceByLeaf(z, s, t), z.rings[s][0];
    FirstPhase(l, z, m, m1, m', s, t);
    forall u | u in z'.rings && (|z'.rings[u]| > 1 || !IsSmall(u)) ensures RingLinked(m', z'.rings[u]) {
      hide OnlyLinked, Get, RingsOk, RingLinked, Seats, Without, LinkedIn, BinCell, PosOk, TreeShape, Front, Slot;
      OtherRing(l, z, s, u);
      RingKept(l, z, Seats(z), m, m1, z.pos[t], Front(z, t), Fd(x), Bk(x), u);
      RingKept(l, z, Without(z, t), m1, m', z.pos[s], Front(z, t), Fd(x), Bk(x), u);
    }
  }

  lemma ReplaceChains(l: Layout, z: Bins, m: Memory, m1: Memory, m': Memory, s: nat, t: nat)
    requires RingsOk(l, z) && TreeShape(z) && ChainsOk(m, z) && Replaceable(z, s, t)
    requires ReplacedCells(l, z, m, m1, m', s, t)
    requires SeatsBinned(l, z, Seats(z)) && SeatsBinned(l, z, Without(z, t))
    requires Reachable(Seats(z), z.pos[t]) && Reachable(Without(z, t), z.pos[s])
    ensures ChainsOk(m', ReplaceByLeaf(z, s, t))
  {
    var z' := ReplaceByLeaf(z, s, t);
    hide OnlyLinked, Get, RingsOk, RingLinked, Seats, Without, LinkedIn, BinCell, PosOk, TreeShape, Slot, SeatsBinned,
      Reachable, Down;
    forall u, j | u in z'.pos && u in z'.rings && 0 < j < |z'.rings[u]|
      ensures ChainedWords(m', z', u, z'.rings[u][j])
    {
      ReplacedChain(l, z, m, m1, m', s, t, u, j);
    }
  }

  /** A chunk behind the front of a ring keeps its words. */
  lemma ReplacedChain(l: Layout, z: Bins, m: Memory, m1: Memory, m': Memory, s: nat, t: nat, u: nat, j: nat)
    requires RingsOk(l, z) && TreeShape(z) && ChainsOk(m, z) && Replaceable(z, s, t)
    requires ReplacedCells(l, z, m, m1, m', s, t)
    requires SeatsBinned(l, z, Seats(z)) && SeatsBinned(l, z, Without(z, t))
    requires Reachable(Seats(z), z.pos[t]) && Reachable(Without(z, t), z.pos[s])
    requires u in z.pos && u in z.rings && 0 < j < |z.rings[u]|
    ensures ChainedWords(m', z, u, z.rings[u][j])
  {
    hide OnlyLinked, Get, RingsOk, RingLinked, Seats, Without, LinkedIn, BinCell, PosOk, TreeShape, Slot, SeatsBinned,
      Reachable, Down, ChainedWords;
    var x, r := z.rings[s][0], Front(z, t);
    FirstPhase(l, z, m, m1, m', s, t);
    assert ChainedWords(m, z, u, z.rings[u][j]);
    NotFront(l, z, t, u, j);
    ChainKept(l, z, Seats(z), m, m1, z.pos[t], r, Fd(x), Bk(x), u, j);
    ChainKept(l, z, Without(z, t), m1, m', z.pos[s], r, Fd(x), Bk(x), u, j);
  }

  lemma NotFront(l: Layout, z: Bins, t: nat, u: nat, j: nat)
    requires RingsOk(l, z) && t in z.rings && |z.rings[t]| > 0 && u in z.rings && 0 < j < |z.rings[u]|
    ensures z.rings[u][j] != z.rings[t][0]
  {
    assert RingOk(z, u);
    if u != t { OtherRing(l, z, t, u); }
  }

  lemma ReplaceMaps(l: Layout, z: Bins, smallmap: bv32, treemap: bv32, s: nat, t: nat)
    requires MapsOk(smallmap, treemap, z) && TreeShape(z) && Replaceable(z, s, t)
    ensures MapsOk(smallmap, treemap, ReplaceByLeaf(z, s, t))
  {
    ReplaceFacts(z, s, t);
    hide Marked, PosOk, Down, Up;
    assert NodeOk(z, s);
    hide TreeShape;
    var z' := ReplaceByLeaf(z, s, t);
    forall i | 0 <= i < NBINS ensures 8 * i in z'.rings && (Marked(smallmap, i) <==> |z'.rings[8 * i]| > 1) {}
    forall b | 0 <= b < NTREEBINS ensures Marked(treemap, b) <==> RootPos(b) in z'.tree {}
  }
}
