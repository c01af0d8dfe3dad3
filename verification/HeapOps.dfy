/**
 * Lemmas that read the links before a change and establish the bins after it.
 */
module HeapOps {
  import opened Basics
  import opened BinIndex
  import opened BinMaps
  import opened HeapLayout
  import opened HeapTrie
  import opened HeapBins
  import opened HeapRings
  import opened HeapNodes
  import opened HeapReplace
  import opened Words

  lemma BinCellLive(l: Layout, z: Bins, c: Cell)
    requires RingsOk(l, z) && BinCell(l, z, c)
    ensures Live(l, c)
  {
    match c
    case Fd(x) => if !IsHeader(x) { assert MemberOk(l, z, x); }
    case Bk(x) => if !IsHeader(x) { assert MemberOk(l, z, x); }
    case Child(x, s) => assert MemberOk(l, z, x);
    case Parent(x) => assert MemberOk(l, z, x);
    case Index(x) => assert MemberOk(l, z, x);
    case Root(b) =>
  }

  ghost predicate AllBinCellsLive(l: Layout, z: Bins) {
    forall c {:trigger BinCell(l, z, c)} :: BinCell(l, z, c) ==> Live(l, c)
  }

  lemma BinCellsLive(l: Layout, z: Bins)
    requires RingsOk(l, z)
    ensures AllBinCellsLive(l, z)
  {
    hide RingsOk, BinCell, Live;
    forall c | BinCell(l, z, c) ensures Live(l, c) { BinCellLive(l, z, c); }
  }

  /** The header, the map bit and the first chunk of a small bin agree. */
  lemma SmallRing(l: Layout, m: Memory, smallmap: bv32, treemap: bv32, z: Bins, s: nat)
    requires BinsOk(l, m, smallmap, treemap, z) && s in z.rings && IsSmall(s)
    ensures SmallIndex(s) < NBINS && |z.rings[s]| > 0 && z.rings[s][0] == Header(SmallIndex(s))
    ensures IsHeader(Header(SmallIndex(s)))
    ensures Marked(smallmap, SmallIndex(s)) <==> |z.rings[s]| > 1
    ensures Marked(smallmap, SmallIndex(s)) ==> Get(m, Fd(Header(SmallIndex(s)))) == Second(z.rings[s])
    ensures s == 8 * SmallIndex(s)
  {
    hide Marked, PosOk, Get;
    assert RingOk(z, s);
    if |z.rings[s]| > 1 {
      assert RingLinked(m, z.rings[s]);
      assert LinkedAt(m, z.rings[s], 0);
    }
  }

  /** The cells written when x is linked behind the front of its ring are live. */
  lemma PushFacts(l: Layout, m: Memory, smallmap: bv32, treemap: bv32, z: Bins, s: nat, x: nat)
    requires BinsOk(l, m, smallmap, treemap, z) && s in z.rings && FreeOfSize(l, x, s) && x !in z.binned
    ensures |z.rings[s]| > 0 && x !in z.rings[s]
    ensures Live(l, Fd(z.rings[s][0])) && Live(l, Bk(Second(z.rings[s]))) && Live(l, Fd(x)) && Live(l, Bk(x))
    ensures AllBinCellsLive(l, z)
    ensures Second(z.rings[s]) != x && z.rings[s][0] != x
    ensures !BinCell(l, z, Fd(x)) && !BinCell(l, z, Bk(x))
  {
    hide PosOk, LinksOk, TreeShape, WordsOk, ChainsOk, MapsOk;
    PushOnRings(l, z, s, x);
    assert RingOk(z, s);
    BinCellsLive(l, z);
    RingCells(l, z, s, 0);
    if |z.rings[s]| > 1 { RingCells(l, z, s, 1); }
    hide RingsOk;
  }

  /** The four words written to link x in behind the front. */
  ghost function PushWords(r: seq<nat>, x: nat): map<Cell, nat>
    requires |r| > 0
  {
    map[Fd(r[0]) := x, Bk(Second(r)) := x, Fd(x) := Second(r), Bk(x) := r[0]]
  }

  lemma SmallPushDone(l: Layout, z: Bins, m: Memory, m': Memory, smallmap: bv32, treemap: bv32, s: nat, x: nat,
                      w: map<Cell, nat>)
    requires BinsOk(l, m, smallmap, treemap, z) && s in z.rings && |z.rings[s]| > 0 && IsSmall(s)
    requires FreeOfSize(l, x, s) && x !in z.binned
    requires Writes(l, m, m', w) && w == PushWords(z.rings[s], x)
    ensures var smallmap' := if |z.rings[s]| == 1 then Mark(smallmap, s / 8) else smallmap;
      BinsOk(l, m', smallmap', treemap, PushOn(z, s, x))
    ensures TagsSame(l, m, m') && UserSame(l, m, m')
  {
    hide BinsOk, Get, Mark, Live, FreeOfSize;
    OnlyLinkWrites(l, m, m', w);
    PushFacts(l, m, smallmap, treemap, z, s, x);
    PushCells(l, z, m, m', s, x, w);
    SmallNotNode(l, m, smallmap, treemap, z, s);
    PushOnOk(l, z, m, m', smallmap, if |z.rings[s]| == 1 then Mark(smallmap, s / 8) else smallmap, treemap, s, x);
  }

  lemma SmallNotNode(l: Layout, m: Memory, smallmap: bv32, treemap: bv32, z: Bins, s: nat)
    requires BinsOk(l, m, smallmap, treemap, z) && IsSmall(s)
    ensures s !in z.pos
  {
    hide RingsOk, LinksOk, WordsOk, ChainsOk, MapsOk, PosOk;
    assert s in z.pos ==> NodeOk(z, s);
  }

  lemma PushCells(l: Layout, z: Bins, m: Memory, m': Memory, s: nat, x: nat, w: map<Cell, nat>)
    requires s in z.rings && |z.rings[s]| > 0 && x !in z.rings[s]
    requires AllBinCellsLive(l, z) && Live(l, Fd(z.rings[s][0])) && Live(l, Bk(Second(z.rings[s]))) && Live(l, Fd(x))
    requires Live(l, Bk(x))
    requires !BinCell(l, z, Fd(x)) && !BinCell(l, z, Bk(x))
    requires Writes(l, m, m', w)
    requires forall c :: c in PushWords(z.rings[s], x) ==> c in w && w[c] == PushWords(z.rings[s], x)[c]
    requires forall c :: c in w && c !in PushWords(z.rings[s], x) ==> !BinCell(l, z, c)
    ensures PushedCells(l, z, m, m', s, x)
  {
    hide Get, Live, BinCell, UserSame;
  }

  // ----- taking a chunk off its ring

  /** The neighbours of position j, as the links give them. */
  lemma RingNeighbours(l: Layout, m: Memory, smallmap: bv32, treemap: bv32, z: Bins, s: nat, j: nat)
    requires BinsOk(l, m, smallmap, treemap, z) && s in z.rings && j < |z.rings[s]|
    requires |z.rings[s]| > 1 || !IsSmall(s)
    ensures var r := z.rings[s]; var f, b := r[Next(r, j)], r[Prev(r, j)];
      && Get(m, Fd(r[j])) == f && Get(m, Bk(r[j])) == b && Get(m, Bk(f)) == r[j] && Get(m, Fd(b)) == r[j]
      && Live(l, Bk(f)) && Live(l, Fd(b)) && Live(l, Fd(f)) && Live(l, Fd(r[j])) && Live(l, Bk(r[j]))
      && (b == r[j] <==> |r| == 1) && (f == b <==> |r| <= 2)
    ensures Distinct(z.rings[s])
    ensures AllBinCellsLive(l, z)
  {
    hide PosOk, Get, TreeShape, WordsOk, ChainsOk, MapsOk, Live;
    var r := z.rings[s];
    assert RingOk(z, s);
    assert RingLinked(m, r);
    assert LinkedAt(m, r, j) && LinkedAt(m, r, Prev(r, j));
    BinCellsLive(l, z);
    RingCells(l, z, s, j);
    RingCells(l, z, s, Next(r, j));
    RingCells(l, z, s, Prev(r, j));
    hide RingsOk, LinksOk, BinCell;
  }

  /** A binned chunk sits on the ring of its size, behind the header if it is small. */
  lemma BinnedOnRing(l: Layout, m: Memory, smallmap: bv32, treemap: bv32, z: Bins, x: nat) returns (s: nat, j: nat)
    requires BinsOk(l, m, smallmap, treemap, z) && x in z.binned
    ensures x in l.chunks && s == l.chunks[x].size && s in z.rings && j < |z.rings[s]| && z.rings[s][j] == x
    ensures OnRing(z, s, j)
    ensures FreeAt(l, x)
  {
    hide PosOk, LinksOk, TreeShape, WordsOk, ChainsOk, MapsOk;
    assert MemberOk(l, z, x);
    s := l.chunks[x].size;
    j :| 0 <= j < |z.rings[s]| && z.rings[s][j] == x;
    assert RingOk(z, s);
    if !OnRing(z, s, j) {
      NotHeader(l, z, s, j);
      BinnedNotHeader(l, z, x);
    }
  }

  lemma BinnedNotHeader(l: Layout, z: Bins, x: nat)
    requires RingsOk(l, z) && x in z.binned
    ensures !IsHeader(x)
  {
    assert MemberOk(l, z, x);
  }

  ghost function DropWords(r: seq<nat>, j: nat): map<Cell, nat>
    requires j < |r|
  {
    map[Bk(r[Next(r, j)]) := r[Prev(r, j)], Fd(r[Prev(r, j)]) := r[Next(r, j)]]
  }

  /** Taking position j off a small ring: an emptied bin is unmarked, any other ring is closed again. */
  lemma SmallDropDone(l: Layout, z: Bins, m: Memory, m': Memory, smallmap: bv32, treemap: bv32, s: nat, j: nat,
                      w: map<Cell, nat>)
    requires BinsOk(l, m, smallmap, treemap, z) && s in z.rings && 0 < j < |z.rings[s]| && IsSmall(s)
    requires Writes(l, m, m', w)
    requires w == if |z.rings[s]| == 2 then map[] else DropWords(z.rings[s], j)
    ensures var smallmap' := if |z.rings[s]| == 2 then Clear(smallmap, s / 8) else smallmap;
      BinsOk(l, m', smallmap', treemap, DropAt(z, s, j))
    ensures TagsSame(l, m, m') && UserSame(l, m, m')
  {
    hide BinsOk, Get, Clear, Live;
    OnlyLinkWrites(l, m, m', w);
    RingNeighbours(l, m, smallmap, treemap, z, s, j);
    DropCells(l, z, m, m', s, j, w);
    DropAtOk(l, z, m, m', smallmap, if |z.rings[s]| == 2 then Clear(smallmap, s / 8) else smallmap, treemap, s, j);
  }

  lemma DropCells(l: Layout, z: Bins, m: Memory, m': Memory, s: nat, j: nat, w: map<Cell, nat>)
    requires s in z.rings && 0 < j < |z.rings[s]|
    requires AllBinCellsLive(l, z) && Live(l, Fd(z.rings[s][j - 1])) && Live(l, Bk(z.rings[s][Next(z.rings[s], j)]))
    requires Writes(l, m, m', w)
    requires w == DropWords(z.rings[s], j) || (w == map[] && |z.rings[s]| == 2 && IsSmall(s))
    ensures DroppedCells(l, z, m, m', s, j)
  {
    hide Get, Live, BinCell, UserSame;
  }

  /** A marked small bin has a first chunk, of the bin's size. */
  lemma FirstOfSmall(l: Layout, m: Memory, smallmap: bv32, treemap: bv32, z: Bins, i: nat)
    requires BinsOk(l, m, smallmap, treemap, z) && i < NBINS && Marked(smallmap, i)
    ensures 8 * i in z.rings && |z.rings[8 * i]| > 1 && IsSmall(8 * i) && z.rings[8 * i][0] == Header(i)
    ensures var x := z.rings[8 * i][1];
      && Get(m, Fd(Header(i))) == x && x in z.binned && FreeOfSize(l, x, 8 * i)
      && (Get(m, Fd(x)) == Header(i) <==> |z.rings[8 * i]| == 2)
  {
    hide Marked, PosOk, Get, TreeShape, WordsOk, ChainsOk;
    var s := 8 * i;
    assert RingOk(z, s);
    assert RingLinked(m, z.rings[s]);
    assert LinkedAt(m, z.rings[s], 0) && LinkedAt(m, z.rings[s], 1);
    assert OnRing(z, s, 1);
  }
}
