/**
 * Walking down a trie by the bits of a size: where the walk stands, what lies below it, and what the
 * child words say.
 */
module HeapWalk {
  import opened BinIndex
  import opened BinMaps
  import opened HeapLayout
  import opened HeapTrie
  import opened HeapBins
  import opened HeapRings
  import opened HeapNodes
  import opened HeapReplace
  import opened HeapOps
  import opened Words

  /** The head words of binned chunks hold their sizes. */
  ghost predicate SizesTagged(l: Layout, m: Memory, z: Bins) {
    forall x :: x in z.binned && x in l.chunks ==> ChunkSize(Get(m, Head(x))) == l.chunks[x].size
  }

  /** q is an occupied position whose decided bits are those of s. */
  ghost predicate OnPath(z: Bins, i: nat, s: nat, q: Pos) {
    q in z.tree && q.bin == i && q.depth <= Width(i) && q.pre == Pre(i, s, q.depth)
  }

  function PathPos(i: nat, s: nat, d: nat): Pos
    requires d <= Width(i)
  {
    Pos(i, d, Pre(i, s, d))
  }

  /** Above every occupied position of the path the path is occupied. */
  lemma {:induction false} PathClosed(z: Bins, i: nat, s: nat, d: nat, e: nat)
    requires TreeShape(z) && d <= e <= Width(i)
    requires PathPos(i, s, e) in z.tree
    ensures PathPos(i, s, d) in z.tree
    decreases e
  {
    if d < e {
      var q := PathPos(i, s, e);
      PreHalf(i, s, e - 1);
      assert Up(q) == PathPos(i, s, e - 1);
      PathClosed(z, i, s, d, e - 1);
    }
  }

  /** The size, ring and chunk at an occupied position. */
  ghost predicate NodeIs(l: Layout, z: Bins, q: Pos)
    requires q in z.tree
  {
    var u := z.tree[q];
    var t := Front(z, u);
    && u in z.pos && z.pos[u] == q && PosOk(u, q) && !IsSmall(u) && q.bin < NTREEBINS
    && u in z.rings && |z.rings[u]| > 0 && z.rings[u][0] == t
    && t in z.binned && FreeOfSize(l, t, u) && t > 0
  }

  /** Its link words, in terms of the neighbouring positions. */
  ghost predicate NodeSays(l: Layout, m: Memory, z: Bins, q: Pos)
    requires q in z.tree
  {
    var t := Front(z, z.tree[q]);
    && Get(m, Child(t, 0)) == At(Seats(z), Down(q, 0)) && Get(m, Child(t, 1)) == At(Seats(z), Down(q, 1))
    && Get(m, Parent(t)) == ParentOf(Seats(z), q) && Get(m, Index(t)) == q.bin
    && Live(l, Child(t, 0)) && Live(l, Child(t, 1)) && Live(l, Parent(t)) && Live(l, Index(t)) && Live(l, Fd(t))
    && Live(l, Bk(t))
  }

  ghost predicate SeatValues(z: Bins) {
    && Seats(z).Keys == z.tree.Keys
    && (forall p :: p in z.tree ==> At(Seats(z), p) == Front(z, z.tree[p]) && At(Seats(z), p) > 0)
    && (forall p :: p !in z.tree ==> At(Seats(z), p) == 0)
  }

  lemma NodeHere(l: Layout, m: Memory, smallmap: bv32, treemap: bv32, z: Bins, q: Pos)
    requires LayoutOk(l) && BinsOk(l, m, smallmap, treemap, z) && q in z.tree
    ensures NodeIs(l, z, q) && NodeSays(l, m, z, q) && SeatValues(z)
  {
    hide LayoutOk, RingsOk, LinksOk, TreeShape, WordsOk, ChainsOk, MapsOk, NodeIs, NodeSays, SeatValues;
    NodeIsHere(l, z, q);
    NodeSaysHere(l, m, z, q);
    SeatValuesHere(l, z);
  }

  lemma NodeIsHere(l: Layout, z: Bins, q: Pos)
    requires LayoutOk(l) && RingsOk(l, z) && TreeShape(z) && q in z.tree
    ensures NodeIs(l, z, q)
  {
    hide PosOk;
    assert NodeOk(z, z.tree[q]);
    SeatIsBinned(l, z, q);
    RootSeat(z, q);
    hide RingsOk;
    ChunkPositive(l, Front(z, z.tree[q]));
  }

  lemma NodeSaysHere(l: Layout, m: Memory, z: Bins, q: Pos)
    requires LayoutOk(l) && RingsOk(l, z) && TreeShape(z) && WordsOk(m, Seats(z)) && q in z.tree
    ensures NodeSays(l, m, z, q)
  {
    hide *;
    SeatIsBinned(l, z, q);
    SeatsKeys(z);
    SeatSays(m, z, q);
    SeatLive(l, z, q);
    SaysBoth(l, m, z, q);
  }

  lemma SeatSays(m: Memory, z: Bins, q: Pos)
    requires WordsOk(m, Seats(z)) && q in Seats(z)
    ensures SeatWords(m, Seats(z), q)
  { hide SeatWords, RootWords, Seats; }

  lemma SeatLive(l: Layout, z: Bins, q: Pos)
    requires q in z.tree && SeatBinned(l, z, q)
    ensures var t := Front(z, z.tree[q]);
      && Live(l, Child(t, 0)) && Live(l, Child(t, 1)) && Live(l, Parent(t)) && Live(l, Index(t)) && Live(l, Fd(t))
      && Live(l, Bk(t))
  { hide Front; }

  lemma SaysBoth(l: Layout, m: Memory, z: Bins, q: Pos)
    requires q in z.tree && q in Seats(z) && Seats(z)[q] == Front(z, z.tree[q]) && SeatWords(m, Seats(z), q)
    requires var t := Front(z, z.tree[q]);
      && Live(l, Child(t, 0)) && Live(l, Child(t, 1)) && Live(l, Parent(t)) && Live(l, Index(t)) && Live(l, Fd(t))
      && Live(l, Bk(t))
    ensures NodeSays(l, m, z, q)
  { hide Front, Seats, Live, Get, At, Down, ParentOf; }

  lemma SeatValuesHere(l: Layout, z: Bins)
    requires LayoutOk(l) && RingsOk(l, z) && TreeShape(z)
    ensures SeatValues(z)
  {
    hide LayoutOk, RingsOk, TreeShape, Front, SeatBinned, Seats;
    SeatsOk(l, z);
    SeatsKeys(z);
    forall p | p in z.tree ensures At(Seats(z), p) == Front(z, z.tree[p]) && At(Seats(z), p) > 0 {
      assert p in Seats(z);
    }
  }

  /** The root slot of a bin. */
  lemma RootHere(l: Layout, m: Memory, smallmap: bv32, treemap: bv32, z: Bins, i: nat)
    requires LayoutOk(l) && BinsOk(l, m, smallmap, treemap, z) && i < NTREEBINS
    ensures Get(m, Root(i)) == At(Seats(z), RootPos(i)) && Live(l, Root(i))
    ensures Marked(treemap, i) <==> RootPos(i) in z.tree
    ensures Get(m, Root(i)) != 0 <==> RootPos(i) in z.tree
    ensures RootPos(i) in z.tree ==> Get(m, Root(i)) == Front(z, z.tree[RootPos(i)])
  {
    hide LayoutOk, RingsOk, LinksOk, ChainsOk, TreeShape, Get, Marked, Seats, At;
    SeatValuesHere(l, z);
    assert RootWords(m, Seats(z));
  }

  lemma RootOnPath(z: Bins, i: nat, s: nat)
    requires i < NTREEBINS && RootPos(i) in z.tree && MIN_LARGE <= s < ARENA && i == TreeIndex(s)
    ensures OnPath(z, i, s, RootPos(i))
    ensures Shl(s, LeftShift(i)) == Undecided(i, s, 0)
  {
    TreeIndexInBin(s);
    RootPreOfBin(i, s);
  }

  /** One step of a descent for size s from a node of another size. */
  lemma PathStep(z: Bins, i: nat, s: nat, q: Pos, k: nat)
    requires TreeShape(z) && i < NTREEBINS && s < WORD && OnPath(z, i, s, q) && z.tree[q] != s
    requires k == Undecided(i, s, q.depth)
    ensures q.depth < Width(i) && k < WORD
    ensures Down(q, SignBit(k)) == PathPos(i, s, q.depth + 1) && ShiftOne(k) == Undecided(i, s, q.depth + 1)
    ensures Down(q, SignBit(k)) in z.tree ==> OnPath(z, i, s, Down(q, SignBit(k)))
  {
    hide TreeIndex, Pre, Undecided, Width;
    var u := z.tree[q];
    assert NodeOk(z, u);
    hide TreeShape;
    if q.depth == Width(i) {
      PreFull(i, s);
      PreFull(i, u);
      assert false;
    } else {
      UndecidedStep(i, s, q.depth);
    }
  }

  /**
   * If s is in the trie but not met down to q, it is strictly below q; if the next position is empty, it is nowhere.
   */
  lemma PathDeeper(z: Bins, i: nat, s: nat, q: Pos)
    requires TreeShape(z) && OnPath(z, i, s, q) && i == TreeIndex(s) && z.tree[q] != s && q.depth < Width(i)
    requires s in z.pos ==> z.pos[s].depth >= q.depth
    ensures s in z.pos ==> z.pos[s].depth >= q.depth + 1
    ensures PathPos(i, s, q.depth + 1) !in z.tree ==> s !in z.pos
  {
    if s in z.pos {
      assert NodeOk(z, s);
      var e := z.pos[s].depth;
      assert z.pos[s] == PathPos(i, s, e);
      if e > q.depth { PathClosed(z, i, s, q.depth + 1, e); }
    }
  }

  // ----- what inserting a large chunk writes

  ghost function FreshWords(i: nat, x: nat): map<Cell, nat> {
    map[Index(x) := i, Child(x, 1) := 0, Child(x, 0) := 0]
  }

  ghost function NodeWords(a: Seating, p: Pos, x: nat): map<Cell, nat> {
    FreshWords(p.bin, x)[Slot(a, p) := x][Parent(x) := ParentOf(a, p)][Bk(x) := x][Fd(x) := x]
  }

  /** The words of a chunk outside the bins are no bin cells. */
  lemma FreshFrame(l: Layout, m: Memory, m': Memory, smallmap: bv32, treemap: bv32, z: Bins, i: nat, x: nat)
    requires BinsOk(l, m, smallmap, treemap, z) && x !in z.binned
    requires Writes(l, m, m', FreshWords(i, x))
    ensures BinsOk(l, m', smallmap, treemap, z)
    ensures TagsSame(l, m, m')
  {
    OnlyLinkWrites(l, m, m', FreshWords(i, x));
    BinCellsLive(l, z);
    assert BinCellsSame(l, z, m, m') by { hide BinsOk, Live, Get, UserSame; }
    hide *;
    BinsFrame(l, m, l, m', smallmap, treemap, z);
  }

  lemma NewNodeDone(l: Layout, m: Memory, m': Memory, smallmap: bv32, treemap: bv32, z: Bins, p: Pos, s: nat, x: nat,
                    w: map<Cell, nat>)
    requires LayoutOk(l) && BinsOk(l, m, smallmap, treemap, z) && FreeOfSize(l, x, s) && !IsSmall(s) && x !in z.binned
    requires p !in z.tree && s !in z.pos && PosOk(s, p) && Reachable(Seats(z), p)
    requires Writes(l, m, m', w) && w == NodeWords(Seats(z), p, x)
    ensures var treemap' := if p.depth == 0 then Mark(treemap, p.bin) else treemap;
      BinsOk(l, m', smallmap, treemap', NewNode(z, p, s, x))
    ensures TagsSame(l, m, m') && UserSame(l, m, m')
  {
    hide BinsOk, LayoutOk, PosOk, Get, Reachable, Mark, Seats;
    OnlyLinkWrites(l, m, m', w);
    NotYet(l, m, smallmap, treemap, z, s, x);
    NoChildren(l, m, smallmap, treemap, z, p);
    SlotFacts(l, m, smallmap, treemap, z, p, x);
    NewNodeCells(l, z, m, m', p, x, w);
    NewNodeOk(l, z, m, m', smallmap, treemap, if p.depth == 0 then Mark(treemap, p.bin) else treemap, p, s, x);
  }

  lemma NotYet(l: Layout, m: Memory, smallmap: bv32, treemap: bv32, z: Bins, s: nat, x: nat)
    requires LayoutOk(l) && BinsOk(l, m, smallmap, treemap, z) && !IsSmall(s) && s !in z.pos && FreeOfSize(l, x, s)
    ensures s !in z.rings && AllBinCellsLive(l, z) && x > 0
  {
    hide PosOk, LinksOk, TreeShape, WordsOk, ChainsOk, MapsOk;
    assert s in z.rings ==> RingOk(z, s);
    BinCellsLive(l, z);
    ChunkPositive(l, x);
  }

  lemma NoChildren(l: Layout, m: Memory, smallmap: bv32, treemap: bv32, z: Bins, p: Pos)
    requires LayoutOk(l) && BinsOk(l, m, smallmap, treemap, z) && p !in z.tree
    ensures At(Seats(z), Down(p, 0)) == 0 && At(Seats(z), Down(p, 1)) == 0
    ensures Down(p, 0) !in Seats(z) && Down(p, 1) !in Seats(z)
  {
    hide LayoutOk, RingsOk, LinksOk, WordsOk, ChainsOk, MapsOk, PosOk;
    UpDown(p, 0);
    UpDown(p, 1);
    SeatsKeys(z);
  }

  /** The slot of a reachable position is a live word, and no word of a chunk outside the bins. */
  lemma SlotFacts(l: Layout, m: Memory, smallmap: bv32, treemap: bv32, z: Bins, p: Pos, x: nat)
    requires LayoutOk(l) && BinsOk(l, m, smallmap, treemap, z) && Reachable(Seats(z), p)
    ensures p.bin < NTREEBINS && Live(l, Slot(Seats(z), p))
    ensures x !in z.binned ==> Slot(Seats(z), p) != Child(x, 0) && Slot(Seats(z), p) != Child(x, 1)
  {
    SeatsKeys(z);
    if p.depth > 0 {
      assert Up(p) in z.tree;
      NodeHere(l, m, smallmap, treemap, z, Up(p));
    }
    hide LayoutOk, BinsOk, PosOk, Seats, Get;
  }

  lemma NewNodeCells(l: Layout, z: Bins, m: Memory, m': Memory, p: Pos, x: nat, w: map<Cell, nat>)
    requires AllBinCellsLive(l, z) && FreeAt(l, x) && l.chunks[x].size >= MIN_LARGE && p.bin < NTREEBINS
    requires At(Seats(z), Down(p, 0)) == 0 && At(Seats(z), Down(p, 1)) == 0
    requires Down(p, 0) !in Seats(z) && Down(p, 1) !in Seats(z)
    requires Live(l, Slot(Seats(z), p)) && Writes(l, m, m', w) && w == NodeWords(Seats(z), p, x)
    requires Slot(Seats(z), p) != Child(x, 0) && Slot(Seats(z), p) != Child(x, 1)
    ensures LinkedIn(m', Seats(z), p, x) && OnlyLinked(l, z, Seats(z), m, m', p, x, Fd(x), Bk(x))
    ensures Get(m', Fd(x)) == x && Get(m', Bk(x)) == x
  {
    hide Get, BinCell, UserSame, Seats, Down, ParentOf;
    var a := Seats(z);
    assert Slot(a, p).Root? || Slot(a, p).Child?;
    assert Live(l, Parent(x)) && Live(l, Index(x)) && Live(l, Child(x, 0)) && Live(l, Child(x, 1)) && Live(l, Fd(x));
    assert Live(l, Bk(x));
    hide Live, Slot;
  }

  lemma ChunkCells(l: Layout, x: nat, s: nat)
    requires FreeOfSize(l, x, s) && !IsSmall(s)
    ensures Live(l, Child(x, 0)) && Live(l, Child(x, 1)) && Live(l, Parent(x)) && Live(l, Index(x)) && Live(l, Fd(x))
    ensures Live(l, Bk(x))
  {}

  /** An unmarked bin is empty, so its root position is free and no chunk of the size is binned. */
  lemma RootSpot(l: Layout, m: Memory, smallmap: bv32, treemap: bv32, z: Bins, i: nat, s: nat)
    requires LayoutOk(l) && BinsOk(l, m, smallmap, treemap, z) && MIN_LARGE <= s < ARENA && i == TreeIndex(s)
    requires RootPos(i) !in z.tree
    ensures s !in z.pos && PosOk(s, RootPos(i)) && Reachable(Seats(z), RootPos(i))
    ensures Slot(Seats(z), RootPos(i)) == Root(i) && ParentOf(Seats(z), RootPos(i)) == Addr(Root(i))
  {
    hide LayoutOk, RingsOk, LinksOk, WordsOk, ChainsOk, MapsOk, Seats;
    TreeIndexInBin(s);
    RootPreOfBin(i, s);
    if s in z.pos {
      assert NodeOk(z, s);
      assert z.pos[s] == PathPos(i, s, z.pos[s].depth);
      PathClosed(z, i, s, 0, z.pos[s].depth);
    }
  }

  /** The head word of the node at q holds its size. */
  lemma SizeHere(l: Layout, m0: Memory, m: Memory, z: Bins, q: Pos)
    requires q in z.tree && NodeIs(l, z, q) && SizesTagged(l, m0, z) && TagsSame(l, m0, m)
    ensures ChunkSize(Get(m, Head(Front(z, z.tree[q])))) == z.tree[q]
    ensures z.tree[q] in z.rings && z.tree[q] in z.pos && |z.rings[z.tree[q]]| > 0
    ensures z.rings[z.tree[q]][0] == Front(z, z.tree[q])
  {
    hide PosOk, Get, ChunkSize;
    assert Live(l, Head(Front(z, z.tree[q])));
  }

  /** Where a descent for s goes from a node of another size, and what it means if nothing is there. */
  lemma StepFacts(l: Layout, m: Memory, smallmap: bv32, treemap: bv32, z: Bins, i: nat, s: nat, q: Pos, k: nat)
    requires LayoutOk(l) && BinsOk(l, m, smallmap, treemap, z) && MIN_LARGE <= s < ARENA && i == TreeIndex(s)
    requires OnPath(z, i, s, q) && z.tree[q] != s && k == Undecided(i, s, q.depth)
    requires s in z.pos ==> z.pos[s].depth >= q.depth
    ensures q.depth < Width(i) && k < WORD
    ensures var t, p := Front(z, z.tree[q]), Down(q, SignBit(k));
      && ShiftOne(k) == Undecided(i, s, p.depth)
      && Live(l, Child(t, SignBit(k)))
      && Get(m, Child(t, SignBit(k))) == At(Seats(z), p)
      && (s in z.pos ==> z.pos[s].depth >= p.depth)
      && (At(Seats(z), p) != 0 ==> OnPath(z, i, s, p) && At(Seats(z), p) == Front(z, z.tree[p]))
      && (At(Seats(z), p) == 0 ==>
            && p !in z.tree && s !in z.pos && PosOk(s, p) && Reachable(Seats(z), p) && p.bin == i && p.depth > 0
            && Slot(Seats(z), p) == Child(t, SignBit(k)) && ParentOf(Seats(z), p) == t)
  {
    hide LayoutOk, BinsOk, PosOk, Seats, Get, Live, TreeIndex, Slot, Reachable, Down, At, Undecided;
    NodeHere(l, m, smallmap, treemap, z, q);
    StepPath(l, m, smallmap, treemap, z, i, s, q, k);
    StepSpot(z, i, s, q, SignBit(k));
  }

  lemma StepPath(l: Layout, m: Memory, smallmap: bv32, treemap: bv32, z: Bins, i: nat, s: nat, q: Pos, k: nat)
    requires LayoutOk(l) && BinsOk(l, m, smallmap, treemap, z) && MIN_LARGE <= s < ARENA && i == TreeIndex(s)
    requires OnPath(z, i, s, q) && z.tree[q] != s && k == Undecided(i, s, q.depth)
    requires s in z.pos ==> z.pos[s].depth >= q.depth
    ensures q.depth < Width(i) && k < WORD
    ensures var p := Down(q, SignBit(k));
      && ShiftOne(k) == Undecided(i, s, p.depth) && p.depth == q.depth + 1
      && (s in z.pos ==> z.pos[s].depth >= p.depth)
      && (p in z.tree ==> OnPath(z, i, s, p))
      && (p !in z.tree ==> s !in z.pos && PosOk(s, p))
  {
    hide LayoutOk, RingsOk, LinksOk, WordsOk, ChainsOk, MapsOk, TreeIndex;
    PathStep(z, i, s, q, k);
    PathDeeper(z, i, s, q);
  }

  lemma StepSpot(z: Bins, i: nat, s: nat, q: Pos, b: nat)
    requires q in z.tree && SeatValues(z) && b < 2 && q.bin < NTREEBINS
    ensures var p := Down(q, b);
      && p.bin == q.bin && p.depth > 0
      && Reachable(Seats(z), p)
      && Slot(Seats(z), p) == Child(Front(z, z.tree[q]), b) && ParentOf(Seats(z), p) == Front(z, z.tree[q])
  {
    UpDown(q, b);
    hide Seats, Front;
  }

  lemma LargePushDone(l: Layout, z: Bins, m: Memory, m': Memory, smallmap: bv32, treemap: bv32, s: nat, x: nat,
                      w: map<Cell, nat>)
    requires BinsOk(l, m, smallmap, treemap, z) && s in z.rings && |z.rings[s]| > 0 && !IsSmall(s) && s in z.pos
    requires TreeIndex(s) < NTREEBINS
    requires FreeOfSize(l, x, s) && x !in z.binned
    requires Writes(l, m, m', w)
    requires var r := z.rings[s];
      w == FreshWords(TreeIndex(s), x)[Bk(Second(r)) := x][Fd(r[0]) := x][Fd(x) := Second(r)][Bk(x) :=
        r[0]][Parent(x) := 0]
    ensures BinsOk(l, m', smallmap, treemap, PushOn(z, s, x))
    ensures TagsSame(l, m, m') && UserSame(l, m, m')
  {
    hide BinsOk, Get, Live, TreeIndex, PushedCells, Writes, FreeOfSize, FreshWords;
    PushFacts(l, m, smallmap, treemap, z, s, x);
    BinOfNode(l, m, smallmap, treemap, z, s);
    LargePushCells(l, z, m, m', s, x, w);
    PushOnOk(l, z, m, m', smallmap, smallmap, treemap, s, x);
  }

  lemma LargePushCells(l: Layout, z: Bins, m: Memory, m': Memory, s: nat, x: nat, w: map<Cell, nat>)
    requires s in z.rings && |z.rings[s]| > 0 && !IsSmall(s) && s in z.pos
    requires FreeOfSize(l, x, s) && x !in z.binned && x !in z.rings[s]
    requires AllBinCellsLive(l, z) && Live(l, Fd(z.rings[s][0])) && Live(l, Bk(Second(z.rings[s])))
    requires Writes(l, m, m', w)
    requires var r := z.rings[s];
      w == FreshWords(z.pos[s].bin, x)[Bk(Second(r)) := x][Fd(r[0]) := x][Fd(x) := Second(r)][Bk(x) :=
        r[0]][Parent(x) := 0]
    ensures PushedCells(l, z, m, m', s, x) && ChainedWords(m', z, s, x)
    ensures TagsSame(l, m, m') && UserSame(l, m, m')
  {
    hide Get, Live, PushedCells, BinCell, UserSame, IsSmall, Front, AllBinCellsLive;
    assert !IsHeader(x);
    hide FreeOfSize;
    ChunkCells(l, x, s);
    NotBinCells(l, z, x);
    OnlyLinkWrites(l, m, m', w);
    PushCells(l, z, m, m', s, x, w);
  }

  lemma NotBinCells(l: Layout, z: Bins, x: nat)
    requires x !in z.binned && !IsHeader(x)
    ensures !BinCell(l, z, Fd(x)) && !BinCell(l, z, Bk(x)) && !BinCell(l, z, Parent(x)) && !BinCell(l, z, Index(x))
    ensures !BinCell(l, z, Child(x, 0)) && !BinCell(l, z, Child(x, 1))
  {}

  lemma BinOfNode(l: Layout, m: Memory, smallmap: bv32, treemap: bv32, z: Bins, s: nat)
    requires BinsOk(l, m, smallmap, treemap, z) && s in z.pos
    ensures z.pos[s].bin == TreeIndex(s)
  {
    hide RingsOk, LinksOk, WordsOk, ChainsOk, MapsOk;
    assert NodeOk(z, s);
  }
}
