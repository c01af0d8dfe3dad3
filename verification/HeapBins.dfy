/**
 * The free chunks in their bins: circular lists of equal sizes for small chunks, and for large ones
 * bitwise tries with one node per size and a ring of equal-sized chunks on each node.
 *
 * The trie is described by positions. A position names a bin, a depth, and the size bits decided so far;
 * the child on side b appends b. Every node's size starts with the bits of its position.
 */
module HeapBins {
  import opened Basics
  import opened BinIndex
  import opened BinMaps
  import opened HeapLayout
  import opened HeapTrie
  import opened Words

  /**
   * rings: by size, the chunks linked on one ring; a small ring starts with its bin header, a large one
   * with the chunk that is the trie node. tree and pos: which size sits at which trie position.
   */
  datatype Bins = Bins(rings: map<nat, seq<nat>>, binned: set<nat>, tree: map<Pos, nat>, pos: map<nat, Pos>)

  /** The first chunk on the ring of size s, or null. */
  function Front(z: Bins, s: nat): nat {
    if s in z.rings && |z.rings[s]| > 0 then z.rings[s][0] else 0
  }

  /** The chunks seated in the tries. */
  function Seats(z: Bins): Seating {
    map p | p in z.tree :: Front(z, z.tree[p])
  }

  // ----- rings

  function Next(r: seq<nat>, k: nat): (n: nat)
    requires k < |r|
    ensures n < |r|
  {
    if k + 1 < |r| then k + 1 else 0
  }

  /** Forward and backward links agree between position k and its successor. */
  ghost predicate LinkedAt(m: Memory, r: seq<nat>, k: nat)
    requires k < |r|
  {
    Get(m, Fd(r[k])) == r[Next(r, k)] && Get(m, Bk(r[Next(r, k)])) == r[k]
  }

  ghost predicate RingLinked(m: Memory, r: seq<nat>) {
    forall k :: 0 <= k < |r| ==> LinkedAt(m, r, k)
  }

  /** The chunks on the ring of size s: all of it, except the header of a small bin. */
  predicate OnRing(z: Bins, s: nat, j: int) {
    s in z.rings && 0 <= j < |z.rings[s]| && (j > 0 || !IsSmall(s))
  }

  ghost predicate RingOk(z: Bins, s: nat)
    requires s in z.rings
  {
    && |z.rings[s]| > 0 && Distinct(z.rings[s])
    && (if IsSmall(s) then s % 8 == 0 && z.rings[s][0] == Header(s / 8) else s in z.pos)
  }

  ghost predicate MemberOk(l: Layout, z: Bins, c: nat) {
    FreeAt(l, c) && !IsHeader(c) && l.chunks[c].size in z.rings && c in z.rings[l.chunks[c].size]
  }

  predicate FreeOfSize(l: Layout, c: nat, s: nat) {
    FreeAt(l, c) && l.chunks[c].size == s && !IsHeader(c)
  }

  ghost predicate RingsOk(l: Layout, z: Bins) {
    && (forall i :: 0 <= i < NBINS ==> 8 * i in z.rings)
    && (forall s :: s in z.rings ==> RingOk(z, s))
    && (forall s, j :: OnRing(z, s, j) ==> z.rings[s][j] in z.binned && FreeOfSize(l, z.rings[s][j], s))
    && (forall c :: c in z.binned ==> MemberOk(l, z, c))
  }

  /** Empty small bins keep stale links; every other ring is linked both ways. */
  ghost predicate LinksOk(m: Memory, z: Bins) {
    forall s :: s in z.rings && (|z.rings[s]| > 1 || !IsSmall(s)) ==> RingLinked(m, z.rings[s])
  }

  // ----- tries

  ghost predicate PosOk(s: nat, p: Pos) {
    && MIN_LARGE <= s < ARENA && p.bin == TreeIndex(s)
    && p.depth <= Width(p.bin) && p.pre == Pre(p.bin, s, p.depth)
  }

  ghost predicate NodeOk(z: Bins, s: nat)
    requires s in z.pos
  {
    z.pos[s] in z.tree && z.tree[z.pos[s]] == s && s in z.rings && !IsSmall(s) && PosOk(s, z.pos[s])
  }

  ghost predicate TreeShape(z: Bins) {
    && (forall s :: s in z.pos ==> NodeOk(z, s))
    && (forall p :: p in z.tree ==> z.tree[p] in z.pos && z.pos[z.tree[p]] == p)
    && (forall p {:trigger Up(p)} :: p in z.tree && p.depth > 0 ==> Up(p) in z.tree)
  }

  /** A chunk on a node's ring but not in the trie has null links; only its index is kept. */
  ghost predicate ChainedWords(m: Memory, z: Bins, s: nat, c: nat)
    requires s in z.pos
  {
    && Get(m, Child(c, 0)) == 0 && Get(m, Child(c, 1)) == 0 && Get(m, Parent(c)) == 0
    && Get(m, Index(c)) == z.pos[s].bin
  }

  ghost predicate ChainsOk(m: Memory, z: Bins) {
    forall s, j :: s in z.pos && s in z.rings && 0 < j < |z.rings[s]| ==> ChainedWords(m, z, s, z.rings[s][j])
  }

  // ----- bin maps

  ghost predicate MapsOk(smallmap: bv32, treemap: bv32, z: Bins) {
    && (forall i :: 0 <= i < NBINS ==> 8 * i in z.rings && (Marked(smallmap, i) <==> |z.rings[8 * i]| > 1))
    && (forall b :: 0 <= b < NTREEBINS ==> (Marked(treemap, b) <==> RootPos(b) in z.tree))
  }

  ghost predicate BinsOk(l: Layout, m: Memory, smallmap: bv32, treemap: bv32, z: Bins) {
    && RingsOk(l, z) && LinksOk(m, z)
    && TreeShape(z) && WordsOk(m, Seats(z)) && ChainsOk(m, z) && MapsOk(smallmap, treemap, z)
  }

  /** The cells the bins depend on. */
  ghost predicate BinCell(l: Layout, z: Bins, c: Cell) {
    match c
    case Head(x) => false
    case Foot(x) => false
    case Fd(x) => IsHeader(x) || x in z.binned
    case Bk(x) => IsHeader(x) || x in z.binned
    case Child(x, s) => x in z.binned && x in l.chunks && !IsSmall(l.chunks[x].size) && s < 2
    case Parent(x) => x in z.binned && x in l.chunks && !IsSmall(l.chunks[x].size)
    case Index(x) => x in z.binned && x in l.chunks && !IsSmall(l.chunks[x].size)
    case Root(b) => b < NTREEBINS
  }

  /** The bin cells agree in both memories. */
  ghost predicate BinCellsSame(l: Layout, z: Bins, m: Memory, m': Memory) {
    forall c {:trigger Get(m', c)} :: BinCell(l, z, c) ==> Get(m', c) == Get(m, c)
  }

  predicate IsRingCell(c: Cell) {
    c.Fd? || c.Bk?
  }

  /** The trie and index cells agree in both memories. */
  ghost predicate WordCellsSame(l: Layout, z: Bins, m: Memory, m': Memory) {
    forall c {:trigger Get(m', c)} :: BinCell(l, z, c) && !IsRingCell(c) ==> Get(m', c) == Get(m, c)
  }

  /** The bins look only at their own chunks and their own cells. */
  lemma BinsFrame(l: Layout, m: Memory, l': Layout, m': Memory, smallmap: bv32, treemap: bv32, z: Bins)
    requires BinsOk(l, m, smallmap, treemap, z)
    requires forall c :: c in z.binned && c in l.chunks ==> c in l'.chunks && l'.chunks[c] == l.chunks[c]
    requires BinCellsSame(l, z, m, m')
    ensures BinsOk(l', m', smallmap, treemap, z)
  {
    hide TreeShape, LinksOk, WordsOk, ChainsOk, MapsOk, BinCellsSame, RingOk, Get, Seats;
    assert WordCellsSame(l, z, m, m') by { WordsOfCells(l, z, m, m'); }
    LinksFrame(l, m, m', z);
    SeatsFrame(l, m, m', z);
    ChainsFrame(l, m, m', z);
  }

  lemma WordsOfCells(l: Layout, z: Bins, m: Memory, m': Memory)
    requires BinCellsSame(l, z, m, m')
    ensures WordCellsSame(l, z, m, m')
  { hide BinCell, Get; }

  lemma LinksFrame(l: Layout, m: Memory, m': Memory, z: Bins)
    requires RingsOk(l, z) && LinksOk(m, z) && BinCellsSame(l, z, m, m')
    ensures LinksOk(m', z)
  {
    forall s | s in z.rings && (|z.rings[s]| > 1 || !IsSmall(s)) ensures RingLinked(m', z.rings[s]) {
      var r := z.rings[s];
      assert RingLinked(m, r);
      forall j | 0 <= j < |r| ensures BinCell(l, z, Fd(r[j])) && BinCell(l, z, Bk(r[j])) {
        RingCells(l, z, s, j);
      }
      forall k | 0 <= k < |r| ensures LinkedAt(m', r, k) { assert LinkedAt(m, r, k); }
    }
  }

  lemma RingCells(l: Layout, z: Bins, s: nat, j: nat)
    requires RingsOk(l, z) && s in z.rings && j < |z.rings[s]|
    ensures BinCell(l, z, Fd(z.rings[s][j])) && BinCell(l, z, Bk(z.rings[s][j]))
    ensures !IsSmall(s) ==>
      var x := z.rings[s][j]; forall c :: c in {Child(x, 0), Child(x, 1), Parent(x), Index(x)} ==> BinCell(l, z, c)
  {
    assert RingOk(z, s);
    if OnRing(z, s, j) {
      assert z.rings[s][j] in z.binned;
    }
  }

  /** The chunks seated in the tries are binned, large, and distinct. */
  lemma {:induction false} SeatsOk(l: Layout, z: Bins)
    requires LayoutOk(l) && RingsOk(l, z) && TreeShape(z)
    ensures Seated(Seats(z))
    ensures forall p :: p in z.tree ==> SeatBinned(l, z, p)
  {
    var a := Seats(z);
    forall p | p in z.tree ensures SeatBinned(l, z, p) { SeatIsBinned(l, z, p); }
    forall p | p in a ensures a[p] > 0 && p.bin < NTREEBINS && (p.depth == 0 ==> p == RootPos(p.bin)) {
      assert SeatBinned(l, z, p);
      RootSeat(z, p);
      ChunkPositive(l, a[p]);
    }
    forall p, q | p in a && q in a && a[p] == a[q] ensures p == q {
      assert SeatBinned(l, z, p) && SeatBinned(l, z, q);
      assert z.pos[z.tree[p]] == p && z.pos[z.tree[q]] == q;
    }
    forall p | p in a && p.depth > 0 ensures Up(p) in a {}
  }

  lemma ChunkPositive(l: Layout, c: nat)
    requires LayoutOk(l) && c in l.chunks
    ensures c > 0 && !IsHeader(c)
  {
    assert ChunkOk(l, c);
  }

  lemma RootSeat(z: Bins, p: Pos)
    requires TreeShape(z) && p in z.tree
    ensures p.bin < NTREEBINS && (p.depth == 0 ==> p == RootPos(p.bin))
  {
    var s := z.tree[p];
    assert NodeOk(z, s);
    TreeIndexInBin(s);
    if p.depth == 0 { RootPreOfBin(p.bin, s); }
  }

  ghost predicate SeatBinned(l: Layout, z: Bins, p: Pos)
    requires p in z.tree
  {
    && z.tree[p] in z.rings && !IsSmall(z.tree[p]) && |z.rings[z.tree[p]]| > 0
    && Front(z, z.tree[p]) == z.rings[z.tree[p]][0]
    && Front(z, z.tree[p]) in z.binned && FreeOfSize(l, Front(z, z.tree[p]), z.tree[p])
  }

  lemma SeatIsBinned(l: Layout, z: Bins, p: Pos)
    requires RingsOk(l, z) && TreeShape(z) && p in z.tree
    ensures SeatBinned(l, z, p)
  {
    var s := z.tree[p];
    assert NodeOk(z, s);
    assert RingOk(z, s);
    assert OnRing(z, s, 0);
  }

  lemma SeatsFrame(l: Layout, m: Memory, m': Memory, z: Bins)
    requires RingsOk(l, z) && TreeShape(z) && WordsOk(m, Seats(z)) && WordCellsSame(l, z, m, m')
    ensures WordsOk(m', Seats(z))
  {
    var a := Seats(z);
    hide RingsOk, TreeShape, Get, SeatWords;
    forall p | p in a ensures SeatWords(m', a, p) {
      assert SeatWords(m, a, p);
      SeatFrame(l, m, m', z, p);
    }
    forall b | 0 <= b < NTREEBINS ensures Get(m', Root(b)) == At(a, RootPos(b)) {
      assert BinCell(l, z, Root(b));
    }
  }

  lemma SeatFrame(l: Layout, m: Memory, m': Memory, z: Bins, p: Pos)
    requires RingsOk(l, z) && TreeShape(z) && p in z.tree && SeatWords(m, Seats(z), p) && WordCellsSame(l, z, m, m')
    ensures SeatWords(m', Seats(z), p)
  {
    hide RingsOk, TreeShape, PosOk, IsSmall, Get, ParentOf, At, Down;
    SeatIsBinned(l, z, p);
  }

  lemma ChainsFrame(l: Layout, m: Memory, m': Memory, z: Bins)
    requires RingsOk(l, z) && TreeShape(z) && ChainsOk(m, z) && WordCellsSame(l, z, m, m')
    ensures ChainsOk(m', z)
  {
    forall s, j | s in z.pos && s in z.rings && 0 < j < |z.rings[s]| ensures ChainedWords(m', z, s, z.rings[s][j]) {
      assert NodeOk(z, s);
      RingCells(l, z, s, j);
      assert ChainedWords(m, z, s, z.rings[s][j]);
      hide RingsOk, PosOk, BinCell, IsSmall;
    }
  }
}
