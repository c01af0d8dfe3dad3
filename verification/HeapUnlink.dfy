/**
 * Lemmas for taking a chunk out of a tree bin: finding a leaf below it, and putting a replacement in its
 * place.
 */
module HeapUnlink {
  import opened BinIndex
  import opened BinMaps
  import opened HeapLayout
  import opened HeapTrie
  import opened HeapBins
  import opened HeapRings
  import opened HeapNodes
  import opened HeapReplace
  import opened HeapOps
  import opened HeapWalk
  import opened Words

  /** Every size whose bits reach q has the bits of p. */
  ghost predicate Under(p: Pos, q: Pos) {
    && q.bin == p.bin && p.depth <= q.depth <= Width(p.bin)
    && forall u {:trigger Pre(p.bin, u, q.depth)} :: Pre(p.bin, u, q.depth) == q.pre ==> Pre(p.bin, u, p.depth) == p.pre
  }

  lemma UnderSelf(p: Pos)
    requires p.depth <= Width(p.bin)
    ensures Under(p, p)
  {}

  lemma UnderStep(p: Pos, q: Pos, b: nat)
    requires Under(p, q) && q.depth < Width(p.bin) && b < 2
    ensures Under(p, Down(q, b))
  {
    forall u | Pre(p.bin, u, q.depth + 1) == 2 * q.pre + b ensures Pre(p.bin, u, p.depth) == p.pre {
      PreHalf(p.bin, u, q.depth);
      assert Pre(p.bin, u, q.depth) == q.pre;
    }
  }

  /** The child seen through a node's child word. */
  lemma ChildHere(l: Layout, m: Memory, smallmap: bv32, treemap: bv32, z: Bins, q: Pos, b: nat)
    requires LayoutOk(l) && BinsOk(l, m, smallmap, treemap, z) && q in z.tree && b < 2
    ensures var t, c, p := Front(z, z.tree[q]), Get(m, Child(Front(z, z.tree[q]), b)), Down(q, b);
      && Live(l, Child(t, b)) && Slot(Seats(z), p) == Child(t, b)
      && (c != 0 <==> p in z.tree)
      && (p in z.tree ==> c == Front(z, z.tree[p]) && q.depth < Width(q.bin) && p.depth <= Width(q.bin))
    ensures q.depth <= Width(q.bin)
  {
    hide LayoutOk, BinsOk, Get, Live, Seats, At, Reachable;
    NodeHere(l, m, smallmap, treemap, z, q);
    StepSpot(z, q.bin, 0, q, b);
    if Down(q, b) in z.tree { NodeHere(l, m, smallmap, treemap, z, Down(q, b)); }
    hide TreeIndex, Front;
  }

  /** A leaf strictly below the node of s may take its place. */
  lemma LeafFits(l: Layout, m: Memory, smallmap: bv32, treemap: bv32, z: Bins, s: nat, q: Pos)
    requires LayoutOk(l) && BinsOk(l, m, smallmap, treemap, z) && s in z.pos && s in z.rings && |z.rings[s]| == 1
    requires q in z.tree && Under(z.pos[s], q) && q.depth > z.pos[s].depth
    requires Down(q, 0) !in z.tree && Down(q, 1) !in z.tree
    ensures Replaceable(z, s, z.tree[q])
    ensures z.pos[z.tree[q]] == q
  {
    hide LayoutOk, RingsOk, LinksOk, WordsOk, ChainsOk, MapsOk, TreeIndex, Down;
    NodeHere(l, m, smallmap, treemap, z, q);
    assert NodeOk(z, s);
    assert Pre(q.bin, z.tree[q], q.depth) == q.pre;
  }

  /** The words of x at position p of the seating a, and what must hold of them before x is replaced. */
  ghost predicate SeatToLeave(l: Layout, m: Memory, a: Seating, p: Pos, x: nat) {
    && x > 0 && p.bin < NTREEBINS
    && Live(l, Child(x, 0)) && Live(l, Child(x, 1))
    && Get(m, Parent(x)) == ParentOf(a, p) && Get(m, Index(x)) == p.bin
    && Get(m, Child(x, 0)) == At(a, Down(p, 0)) && Get(m, Child(x, 1)) == At(a, Down(p, 1))
    && Live(l, Slot(a, p)) && Get(m, Slot(a, p)) == x
    && Slot(a, p) != Child(x, 0) && Slot(a, p) != Child(x, 1)
    && (Get(m, Root(p.bin)) == x ==> p.depth == 0)
    && (p.depth > 0 && p.pre % 2 == 1 ==> Get(m, Child(At(a, Up(p)), 0)) != x)
  }

  /** Child i of position p: its chunk is no null and neither x nor r. */
  ghost predicate ChildApart(l: Layout, a: Seating, p: Pos, i: nat, x: nat, r: nat) {
    var c := At(a, Down(p, i));
    if Down(p, i) in a then c > 0 && c != x && c != r && Live(l, Parent(c)) else c == 0
  }

  /** r is free to be linked in at p: null links, live words, none of them the slot. */
  ghost predicate ReadyToSeat(l: Layout, m: Memory, a: Seating, p: Pos, x: nat, r: nat) {
    && r != x && Live(l, Parent(r)) && Live(l, Child(r, 0)) && Live(l, Child(r, 1)) && Live(l, Index(r))
    && Get(m, Child(r, 0)) == 0 && Get(m, Child(r, 1)) == 0 && Get(m, Index(r)) == p.bin
    && Slot(a, p) != Child(r, 0) && Slot(a, p) != Child(r, 1)
    && ChildApart(l, a, p, 0, x, r) && ChildApart(l, a, p, 1, x, r)
    && (Down(p, 0) in a && Down(p, 1) in a ==> At(a, Down(p, 0)) != At(a, Down(p, 1)))
  }

  ghost function ChildWords(a: Seating, p: Pos, i: nat, r: nat): map<Cell, nat> {
    if Down(p, i) in a then map[Child(r, i) := At(a, Down(p, i)), Parent(At(a, Down(p, i))) := r] else map[]
  }

  ghost function ReseatWords(a: Seating, p: Pos, r: nat): map<Cell, nat> {
    if r == 0 then map[Slot(a, p) := 0]
    else map[Slot(a, p) := r, Parent(r) := ParentOf(a, p)] + ChildWords(a, p, 0, r) + ChildWords(a, p, 1, r)
  }

  /** After the words are written, r is linked in and nothing else of the bins has changed. */
  lemma ReseatDone(l: Layout, z: Bins, m: Memory, m': Memory, a: Seating, p: Pos, x: nat, r: nat)
    requires AllBinCellsLive(l, z) && SeatToLeave(l, m, a, p, x) && r != 0 && ReadyToSeat(l, m, a, p, x, r)
    requires Writes(l, m, m', ReseatWords(a, p, r))
    ensures LinkedIn(m', a, p, r)
    ensures forall e, f :: OnlyLinked(l, z, a, m, m', p, r, e, f)
    ensures TagsSame(l, m, m') && UserSame(l, m, m')
  {
    hide Get, Live, Down, Up, BinCell, UserSame;
    OnlyLinkWrites(l, m, m', ReseatWords(a, p, r));
    assert Slot(a, p).Root? || Slot(a, p).Child?;
    hide Slot;
    LinkWords(l, m, m', a, p, x, r);
    OnlyThose(l, z, m, m', a, p, r);
  }

  lemma LinkWords(l: Layout, m: Memory, m': Memory, a: Seating, p: Pos, x: nat, r: nat)
    requires SeatToLeave(l, m, a, p, x) && r != 0 && ReadyToSeat(l, m, a, p, x, r)
    requires Writes(l, m, m', ReseatWords(a, p, r)) && (Slot(a, p).Root? || Slot(a, p).Child?)
    ensures LinkedIn(m', a, p, r)
  {
    hide Get, Live, Down, Up, UserSame, Slot, ParentOf, At;
  }

  lemma OnlyThose(l: Layout, z: Bins, m: Memory, m': Memory, a: Seating, p: Pos, r: nat)
    requires AllBinCellsLive(l, z) && r != 0
    requires Writes(l, m, m', ReseatWords(a, p, r))
    ensures forall e, f :: OnlyLinked(l, z, a, m, m', p, r, e, f)
  {
    hide Get, Live, Down, Up, UserSame, Slot, ParentOf, BinCell;
  }

  lemma ClearDone(l: Layout, z: Bins, m: Memory, m': Memory, a: Seating, p: Pos, x: nat)
    requires AllBinCellsLive(l, z) && Live(l, Slot(a, p))
    requires Writes(l, m, m', map[Slot(a, p) := 0])
    ensures Get(m', Slot(a, p)) == 0
    ensures forall e, f :: OnlyLinked(l, z, a, m, m', p, x, e, f)
    ensures TagsSame(l, m, m') && UserSame(l, m, m')
  {
    assert Slot(a, p).Root? || Slot(a, p).Child?;
    hide Get, Live, Down, Up, UserSame, Slot, BinCell;
    OnlyLinkWrites(l, m, m', map[Slot(a, p) := 0]);
  }

  // ----- from the bins to the conditions of a replacement

  lemma SeatLiveIn(l: Layout, z: Bins, a: Seating, q: Pos)
    requires SeatsBinned(l, z, a) && q in a
    ensures var t := a[q];
      t > 0 && Live(l, Child(t, 0)) && Live(l, Child(t, 1)) && Live(l, Parent(t)) && Live(l, Index(t))
  {
    assert SeatBinned(l, z, q);
    hide Seated, Front, SeatBinned;
    SeatLive(l, z, q);
    hide Live;
    SeatedPart(l, z, a);
    SeatPositive(a, q);
  }

  lemma LeavingSeat(l: Layout, z: Bins, m: Memory, a: Seating, p: Pos)
    requires SeatsBinned(l, z, a) && WordsOk(m, a) && p in a
    ensures SeatToLeave(l, m, a, p, a[p])
  {
    SeatLiveIn(l, z, a, p);
    SeatedPart(l, z, a);
    hide SeatsBinned;
    assert SeatWords(m, a, p);
    SlotIs(a, p, p, 0);
    SlotIs(a, p, p, 1);
    SlotHolds(l, z, m, a, p);
    RootHolds(m, a, p);
    hide WordsOk, Seated, Get, Live, Slot, At, Up;
  }

  lemma SlotHolds(l: Layout, z: Bins, m: Memory, a: Seating, p: Pos)
    requires SeatsBinned(l, z, a) && WordsOk(m, a) && p in a
    ensures Get(m, Slot(a, p)) == a[p] && Live(l, Slot(a, p)) && p.bin < NTREEBINS
    ensures p.depth > 0 && p.pre % 2 == 1 ==> Get(m, Child(At(a, Up(p)), 0)) != a[p]
  {
    SeatedPart(l, z, a);
    if p.depth > 0 {
      DownUp(p);
      var u := Up(p);
      assert u in a;
      SeatLiveIn(l, z, a, u);
      assert SeatWords(m, a, u);
      hide SeatsBinned, WordsOk, Get, Live, Up;
    } else {
      hide SeatsBinned, Get;
      assert RootWords(m, a);
    }
  }

  lemma RootHolds(m: Memory, a: Seating, p: Pos)
    requires Seated(a) && WordsOk(m, a) && p in a
    ensures Get(m, Root(p.bin)) == a[p] ==> p.depth == 0
  {
    assert RootWords(m, a);
    hide Get;
  }

  lemma ReadySeat(l: Layout, z: Bins, m: Memory, a: Seating, p: Pos, r: nat)
    requires SeatsBinned(l, z, a) && p in a && r !in a.Values && r > 0
    requires FreeAt(l, r) && l.chunks[r].size >= MIN_LARGE
    requires Get(m, Child(r, 0)) == 0 && Get(m, Child(r, 1)) == 0 && Get(m, Index(r)) == p.bin
    ensures ReadyToSeat(l, m, a, p, a[p], r)
  {
    SeatedPart(l, z, a);
    ApartChild(l, z, a, p, 0, r);
    ApartChild(l, z, a, p, 1, r);
    NotSeated(a, r, p);
    SlotNot(l, z, a, p, r);
    hide SeatsBinned, Get, Slot, Up, Down;
    assert Down(p, 0) != Down(p, 1) by { DownsDiffer(p); }
  }

  lemma DownsDiffer(p: Pos)
    ensures Down(p, 0) != Down(p, 1) && Down(p, 0) != p && Down(p, 1) != p
  {}

  lemma SlotNot(l: Layout, z: Bins, a: Seating, p: Pos, r: nat)
    requires SeatsBinned(l, z, a) && p in a && r !in a.Values
    ensures Slot(a, p) != Child(r, 0) && Slot(a, p) != Child(r, 1)
  {
    SeatedPart(l, z, a);
    hide SeatsBinned;
    if p.depth > 0 { assert Up(p) in a; NotSeated(a, r, Up(p)); }
  }

  lemma ApartChild(l: Layout, z: Bins, a: Seating, p: Pos, i: nat, r: nat)
    requires SeatsBinned(l, z, a) && p in a && r !in a.Values && i < 2
    ensures ChildApart(l, a, p, i, a[p], r)
  {
    DownsDiffer(p);
    SeatedPart(l, z, a);
    if Down(p, i) in a {
      SeatLiveIn(l, z, a, Down(p, i));
      NotSeated(a, r, Down(p, i));
    }
    hide SeatsBinned, Down, Live;
  }

  // ----- the four ways a chunk leaves a tree bin

  lemma BinParts(l: Layout, m: Memory, smallmap: bv32, treemap: bv32, z: Bins)
    requires BinsOk(l, m, smallmap, treemap, z)
    ensures RingsOk(l, z) && LinksOk(m, z) && TreeShape(z) && WordsOk(m, Seats(z)) && ChainsOk(m, z)
    ensures MapsOk(smallmap, treemap, z)
  {
    hide RingsOk, LinksOk, TreeShape, WordsOk, ChainsOk, MapsOk;
  }

  lemma LastIsPrev(z: Bins, s: nat)
    requires s in z.rings && |z.rings[s]| > 1
    ensures LastOf(z, s) == z.rings[s][Prev(z.rings[s], 0)]
  {}

  lemma OnlyRingWords(r: seq<nat>, j: nat)
    requires j < |r|
    ensures forall c :: c in DropWords(r, j) ==> IsRingCell(c)
  {}

  /** The parent field is null exactly for chunks behind the front of their ring. */
  lemma ParentTells(l: Layout, m: Memory, smallmap: bv32, treemap: bv32, z: Bins, s: nat, j: nat)
    requires LayoutOk(l) && BinsOk(l, m, smallmap, treemap, z) && s in z.rings && !IsSmall(s) && j < |z.rings[s]|
    ensures Get(m, Parent(z.rings[s][j])) == 0 <==> j > 0
    ensures s in z.pos && z.pos[s] in z.tree && z.tree[z.pos[s]] == s && z.pos[s] in Seats(z)
    ensures Front(z, s) == z.rings[s][0] && Seats(z)[z.pos[s]] == z.rings[s][0]
  {
    hide LayoutOk, LinksOk, WordsOk, MapsOk, PosOk, Get;
    assert RingOk(z, s);
    assert NodeOk(z, s);
    SeatsKeys(z);
    var p := z.pos[s];
    if j > 0 {
      assert ChainedWords(m, z, s, z.rings[s][j]);
    } else {
      hide RingsOk, TreeShape, ChainsOk, Seats;
      NodeHere(l, m, smallmap, treemap, z, p);
      ParentNotNull(z, p);
    }
  }

  lemma ParentNotNull(z: Bins, p: Pos)
    requires TreeShape(z) && SeatValues(z) && p in z.tree
    ensures ParentOf(Seats(z), p) != 0
  {
    hide PosOk, Seats;
    if p.depth > 0 { assert Up(p) in z.tree; }
  }

  lemma ChainedDropDone(l: Layout, z: Bins, m: Memory, m': Memory, smallmap: bv32, treemap: bv32, s: nat, j: nat)
    requires BinsOk(l, m, smallmap, treemap, z) && s in z.rings && 0 < j < |z.rings[s]| && !IsSmall(s)
    requires Writes(l, m, m', DropWords(z.rings[s], j))
    ensures BinsOk(l, m', smallmap, treemap, DropAt(z, s, j))
    ensures TagsSame(l, m, m') && UserSame(l, m, m')
  {
    hide BinsOk, Get, Live;
    OnlyLinkWrites(l, m, m', DropWords(z.rings[s], j));
    RingNeighbours(l, m, smallmap, treemap, z, s, j);
    DropCells(l, z, m, m', s, j, DropWords(z.rings[s], j));
    DropAtOk(l, z, m, m', smallmap, smallmap, treemap, s, j);
  }

  /** After the ring is closed around the front, its last chunk is ready to take the front's place. */
  lemma PromoteReady(l: Layout, z: Bins, m: Memory, m1: Memory, smallmap: bv32, treemap: bv32, s: nat)
    requires LayoutOk(l) && BinsOk(l, m, smallmap, treemap, z) && s in z.rings && |z.rings[s]| > 1 && s in z.pos
    requires !IsSmall(s)
    requires Writes(l, m, m1, DropWords(z.rings[s], 0))
    ensures z.pos[s] in Seats(z) && SeatToLeave(l, m1, Seats(z), z.pos[s], z.rings[s][0])
    ensures ReadyToSeat(l, m1, Seats(z), z.pos[s], z.rings[s][0], LastOf(z, s))
    ensures LastOf(z, s) == z.rings[s][Prev(z.rings[s], 0)] && LastOf(z, s) != 0
  {
    hide *;
    BinParts(l, m, smallmap, treemap, z);
    ParentTells(l, m, smallmap, treemap, z, s, 0);
    LastIsPrev(z, s);
    OnlyRingWords(z.rings[s], 0);
    var r := LastOf(z, s);
    BinCellsLive(l, z);
    RingWritesKeepWords(l, z, m, m1, DropWords(z.rings[s], 0));
    SeatsFrame(l, m, m1, z);
    ChainsFrame(l, m, m1, z);
    AllSeats(l, z);
    LeavingSeat(l, z, m1, Seats(z), z.pos[s]);
    LastNotSeated(l, z, s);
    LastPositive(l, z, s);
    LastChained(l, z, m1, s);
    ReadySeat(l, z, m1, Seats(z), z.pos[s], r);
  }

  lemma RingWritesKeepWords(l: Layout, z: Bins, m: Memory, m1: Memory, w: map<Cell, nat>)
    requires AllBinCellsLive(l, z) && Writes(l, m, m1, w) && forall c :: c in w ==> IsRingCell(c)
    ensures WordCellsSame(l, z, m, m1)
  {
    hide Get, Live, BinCell, UserSame;
  }

  lemma LastChained(l: Layout, z: Bins, m: Memory, s: nat)
    requires RingsOk(l, z) && ChainsOk(m, z) && s in z.pos && s in z.rings && |z.rings[s]| > 1 && !IsSmall(s)
    ensures var r := LastOf(z, s);
      && Get(m, Child(r, 0)) == 0 && Get(m, Child(r, 1)) == 0 && Get(m, Index(r)) == z.pos[s].bin
      && FreeAt(l, r) && l.chunks[r].size >= MIN_LARGE
  {
    hide Get;
    assert ChainedWords(m, z, s, z.rings[s][|z.rings[s]| - 1]);
    assert OnRing(z, s, |z.rings[s]| - 1);
  }

  lemma PromoteDone(l: Layout, z: Bins, m: Memory, m1: Memory, m': Memory, smallmap: bv32, treemap: bv32, s: nat)
    requires LayoutOk(l) && BinsOk(l, m, smallmap, treemap, z) && s in z.rings && |z.rings[s]| > 1 && s in z.pos
    requires !IsSmall(s)
    requires Writes(l, m, m1, DropWords(z.rings[s], 0))
    requires Writes(l, m1, m', ReseatWords(Seats(z), z.pos[s], LastOf(z, s)))
    ensures BinsOk(l, m', smallmap, treemap, Promote(z, s))
    ensures TagsSame(l, m, m') && UserSame(l, m, m')
  {
    hide LayoutOk, BinsOk, Seats, SeatToLeave, ReadyToSeat, LastOf, LinkedIn, OnlyLinked, ReseatWords, Writes,
      TagsSame, UserSame;
    PromoteReady(l, z, m, m1, smallmap, treemap, s);
    RingNeighbours(l, m, smallmap, treemap, z, s, 0);
    ReseatDone(l, z, m1, m', Seats(z), z.pos[s], z.rings[s][0], LastOf(z, s));
    OnlyLinkWrites(l, m, m1, DropWords(z.rings[s], 0));
    SameTwice(l, m, m1, m');
    PromoteCells(l, z, m, m1, m', s);
    PromoteOk(l, z, m, m', smallmap, treemap, s);
  }

  lemma SameTwice(l: Layout, m: Memory, m1: Memory, m': Memory)
    requires TagsSame(l, m, m1) && UserSame(l, m, m1) && TagsSame(l, m1, m') && UserSame(l, m1, m')
    ensures TagsSame(l, m, m') && UserSame(l, m, m')
  {
    hide Get, Live, UserWord;
  }

  lemma PromoteCells(l: Layout, z: Bins, m: Memory, m1: Memory, m': Memory, s: nat)
    requires s in z.rings && |z.rings[s]| > 1 && s in z.pos && AllBinCellsLive(l, z)
    requires var r := z.rings[s]; Live(l, Bk(r[Next(r, 0)])) && Live(l, Fd(r[Prev(r, 0)]))
    requires LastOf(z, s) == z.rings[s][Prev(z.rings[s], 0)]
    requires Writes(l, m, m1, DropWords(z.rings[s], 0))
    requires Writes(l, m1, m', ReseatWords(Seats(z), z.pos[s], LastOf(z, s)))
    requires forall e, f :: OnlyLinked(l, z, Seats(z), m1, m', z.pos[s], LastOf(z, s), e, f)
    ensures var r := LastOf(z, s);
      && Get(m', Fd(r)) == z.rings[s][1] && Get(m', Bk(z.rings[s][1])) == r
      && OnlyLinked(l, z, Seats(z), m, m', z.pos[s], r, Fd(r), Bk(z.rings[s][1]))
  {
    var r := LastOf(z, s);
    var e, f := Fd(r), Bk(z.rings[s][1]);
    assert OnlyLinked(l, z, Seats(z), m1, m', z.pos[s], r, e, f);
    ReseatNoRing(Seats(z), z.pos[s], r);
    hide Get, Live, BinCell, LinkCell, UserSame, Seats, ReseatWords, LastOf;
  }

  lemma ReseatNoRing(a: Seating, p: Pos, r: nat)
    ensures forall c :: c in ReseatWords(a, p, r) ==> !IsRingCell(c)
  {}

  // ----- a single chunk of its size

  lemma RemoveDone(l: Layout, z: Bins, m: Memory, m': Memory, smallmap: bv32, treemap: bv32, s: nat)
    requires LayoutOk(l) && BinsOk(l, m, smallmap, treemap, z) && s in z.rings && |z.rings[s]| == 1 && s in z.pos
    requires !IsSmall(s)
    requires Down(z.pos[s], 0) !in z.tree && Down(z.pos[s], 1) !in z.tree
    requires Writes(l, m, m', ReseatWords(Seats(z), z.pos[s], 0))
    ensures var p := z.pos[s]; var treemap' := if p.depth == 0 && p.bin < NBINS then Clear(treemap, p.bin) else treemap;
      BinsOk(l, m', smallmap, treemap', RemoveNode(z, s))
    ensures TagsSame(l, m, m') && UserSame(l, m, m')
  {
    hide LayoutOk, BinsOk, Seats, OnlyLinked, Writes, TagsSame, UserSame, Down, Clear;
    SingleLeaving(l, z, m, smallmap, treemap, s);
    var x := z.rings[s][0];
    assert ReseatWords(Seats(z), z.pos[s], 0) == map[Slot(Seats(z), z.pos[s]) := 0];
    AllLive(l, m, smallmap, treemap, z);
    ClearDone(l, z, m, m', Seats(z), z.pos[s], x);
    assert OnlyLinked(l, z, Seats(z), m, m', z.pos[s], x, Fd(x), Bk(x));
    RemoveNodeOk(l, z, m, m', smallmap, treemap,
                 if z.pos[s].depth == 0 && z.pos[s].bin < NBINS then Clear(treemap, z.pos[s].bin) else treemap, s);
  }

  lemma AllLive(l: Layout, m: Memory, smallmap: bv32, treemap: bv32, z: Bins)
    requires BinsOk(l, m, smallmap, treemap, z)
    ensures AllBinCellsLive(l, z)
  {
    hide RingsOk, LinksOk, TreeShape, WordsOk, ChainsOk, MapsOk;
    BinCellsLive(l, z);
  }

  lemma SingleLeaving(l: Layout, z: Bins, m: Memory, smallmap: bv32, treemap: bv32, s: nat)
    requires LayoutOk(l) && BinsOk(l, m, smallmap, treemap, z) && s in z.rings && |z.rings[s]| >= 1 && s in z.pos
    requires !IsSmall(s)
    ensures z.pos[s] in Seats(z) && SeatToLeave(l, m, Seats(z), z.pos[s], z.rings[s][0])
  {
    ParentTells(l, m, smallmap, treemap, z, s, 0);
    hide LayoutOk, RingsOk, LinksOk, TreeShape, WordsOk, ChainsOk, MapsOk, Seats, SeatsBinned, SeatToLeave, IsSmall;
    AllSeats(l, z);
    LeavingSeat(l, z, m, Seats(z), z.pos[s]);
  }

  /** After the leaf's slot is cleared, the leaf is ready to take the place of the single chunk of size s. */
  lemma ReplaceReady(l: Layout, z: Bins, m: Memory, m1: Memory, smallmap: bv32, treemap: bv32, s: nat, t: nat)
    requires LayoutOk(l) && BinsOk(l, m, smallmap, treemap, z) && Replaceable(z, s, t)
    requires Writes(l, m, m1, map[Slot(Seats(z), z.pos[t]) := 0])
    ensures SeatToLeave(l, m1, Without(z, t), z.pos[s], z.rings[s][0])
    ensures ReadyToSeat(l, m1, Without(z, t), z.pos[s], z.rings[s][0], Front(z, t)) && Front(z, t) != 0
    ensures Get(m1, Slot(Seats(z), z.pos[t])) == 0
    ensures forall c {:trigger Get(m1, c)} ::
      BinCell(l, z, c) && c != Slot(Seats(z), z.pos[t]) ==> Get(m1, c) == Get(m, c)
    ensures TagsSame(l, m, m1) && UserSame(l, m, m1)
  {
    hide *;
    BinParts(l, m, smallmap, treemap, z);
    ReplaceFacts(z, s, t);
    var a, a1, p, q, r, x := Seats(z), Without(z, t), z.pos[s], z.pos[t], Front(z, t), z.rings[s][0];
    ParentTells(l, m, smallmap, treemap, z, s, 0);
    ParentTells(l, m, smallmap, treemap, z, t, 0);
    AllSeats(l, z);
    SeatedPart(l, z, a);
    SlotHolds(l, z, m, a, q);
    BinCellsLive(l, z);
    ClearDone(l, z, m, m1, a, q, r);
    ClearedCells(l, z, m, m1, Slot(a, q));
    PosReachable(l, z, t);
    FrontSeat(l, z, t);
    RingKinds(r);
    SeatCells(l, z, a, m, m1, q, r, Fd(r), Bk(r));
    SlotIs(a, q, q, 0);
    SlotIs(a, q, q, 1);
    DownsDiffer(q);
    WithoutIs(z, s, t);
    LeafIsLeaf(z, q);
    ClearSeat(m, m1, a, q);
    PartBinned(l, z, a, a1, q);
    LeavingSeat(l, z, m1, a1, p);
    NotInWithout(z, t, r);
    NodeHere(l, m, smallmap, treemap, z, q);
    LeafWords(l, z, m, m1, q);
    ReadySeat(l, z, m1, a1, p, r);
  }

  lemma WithoutIs(z: Bins, s: nat, t: nat)
    requires s in z.pos && t in z.pos && z.pos[s] in Seats(z) && z.pos[s] != z.pos[t]
    ensures Without(z, t) == Seats(z) - {z.pos[t]} && z.pos[s] in Without(z, t)
    ensures Without(z, t)[z.pos[s]] == Seats(z)[z.pos[s]]
  {
    hide Seats;
  }

  lemma RingKinds(r: nat)
    ensures IsRingCell(Fd(r)) && IsRingCell(Bk(r))
  {}

  lemma LeafIsLeaf(z: Bins, q: Pos)
    requires Seats(z).Keys == z.tree.Keys && Down(q, 0) !in z.tree && Down(q, 1) !in z.tree
    ensures Down(q, 0) !in Seats(z) && Down(q, 1) !in Seats(z)
  {
    hide Seats, Down;
  }

  lemma ClearedCells(l: Layout, z: Bins, m: Memory, m1: Memory, c0: Cell)
    requires AllBinCellsLive(l, z) && Writes(l, m, m1, map[c0 := 0])
    ensures forall c {:trigger Get(m1, c)} :: BinCell(l, z, c) && c != c0 ==> Get(m1, c) == Get(m, c)
  {
    hide Get, Live, BinCell, UserSame;
  }

  lemma LeafWords(l: Layout, z: Bins, m: Memory, m1: Memory, q: Pos)
    requires q in z.tree && NodeIs(l, z, q) && NodeSays(l, m, z, q) && SeatValues(z)
    requires Down(q, 0) !in z.tree && Down(q, 1) !in z.tree && Slot(Seats(z), q) != Child(Front(z, z.tree[q]), 0)
    requires Slot(Seats(z), q) != Child(Front(z, z.tree[q]), 1)
    requires forall c {:trigger Get(m1, c)} :: BinCell(l, z, c) && c != Slot(Seats(z), q) ==> Get(m1, c) == Get(m, c)
    ensures var r := Front(z, z.tree[q]);
      && Get(m1, Child(r, 0)) == 0 && Get(m1, Child(r, 1)) == 0 && Get(m1, Index(r)) == q.bin
      && FreeAt(l, r) && l.chunks[r].size >= MIN_LARGE && r > 0
  {
    hide Get, Down, Seats, Front, PosOk;
    assert Slot(Seats(z), q).Root? || Slot(Seats(z), q).Child?;
    hide Slot;
  }

  lemma ReplaceDone(l: Layout, z: Bins, m: Memory, m1: Memory, m': Memory, smallmap: bv32, treemap: bv32, s: nat,
                    t: nat)
    requires LayoutOk(l) && BinsOk(l, m, smallmap, treemap, z) && Replaceable(z, s, t)
    requires Writes(l, m, m1, map[Slot(Seats(z), z.pos[t]) := 0])
    requires Writes(l, m1, m', ReseatWords(Without(z, t), z.pos[s], Front(z, t)))
    ensures BinsOk(l, m', smallmap, treemap, ReplaceByLeaf(z, s, t))
    ensures TagsSame(l, m, m') && UserSame(l, m, m')
  {
    hide LayoutOk, BinsOk, Seats, SeatToLeave, ReadyToSeat, LinkedIn, OnlyLinked, ReseatWords, Writes, TagsSame,
      UserSame, Front, Without, Get, BinCell, PosOk;
    ReplaceReady(l, z, m, m1, smallmap, treemap, s, t);
    var x := z.rings[s][0];
    AllLive(l, m, smallmap, treemap, z);
    ReseatDone(l, z, m1, m', Without(z, t), z.pos[s], x, Front(z, t));
    SameTwice(l, m, m1, m');
    assert OnlyLinked(l, z, Without(z, t), m1, m', z.pos[s], Front(z, t), Fd(x), Bk(x));
    ReplaceOk(l, z, m, m1, m', smallmap, treemap, s, t);
  }

  lemma DownFacts(p: Pos, b: nat)
    requires b < 2
    ensures Down(p, b).depth == p.depth + 1 && Down(p, b).bin == p.bin && Down(p, b).pre % 2 == b
    ensures Down(p, b) == Down(p, Down(p, b).pre % 2)
  {}

  /** Closing the ring does not touch the parent field of x. */
  lemma ParentKept(l: Layout, z: Bins, m: Memory, m1: Memory, smallmap: bv32, treemap: bv32, s: nat, j: nat, xp: nat)
    requires BinsOk(l, m, smallmap, treemap, z) && s in z.rings && !IsSmall(s) && j < |z.rings[s]|
    requires Writes(l, m, m1, DropWords(z.rings[s], j)) && xp == Get(m, Parent(z.rings[s][j]))
    ensures xp == Get(m1, Parent(z.rings[s][j]))
  {
    var x := z.rings[s][j];
    BinParts(l, m, smallmap, treemap, z);
    RingCells(l, z, s, j);
    assert BinCell(l, z, Parent(x));
    BinCellLive(l, z, Parent(x));
    hide BinsOk, RingsOk, Get, Live, BinCell;
  }

  lemma ReplaceParentKept(l: Layout, z: Bins, m: Memory, m1: Memory, smallmap: bv32, treemap: bv32, s: nat, t: nat)
    requires BinsOk(l, m, smallmap, treemap, z) && Replaceable(z, s, t)
    requires Writes(l, m, m1, map[Slot(Seats(z), z.pos[t]) := 0])
    ensures Get(m1, Parent(z.rings[s][0])) == Get(m, Parent(z.rings[s][0]))
  {
    var x := z.rings[s][0];
    BinParts(l, m, smallmap, treemap, z);
    ReplaceFacts(z, s, t);
    RingCells(l, z, s, 0);
    assert BinCell(l, z, Parent(x));
    BinCellLive(l, z, Parent(x));
    assert Slot(Seats(z), z.pos[t]).Root? || Slot(Seats(z), z.pos[t]).Child?;
    hide BinsOk, RingsOk, Get, Live, BinCell, Slot, Replaceable, Seats;
  }
}
