/**
 * Best-fit search in the tree bins: what a descent by the bits of the request, the deepest untaken right
 * subtree, and the leftmost path below it leave to be considered.
 */
module HeapSearch {
  import opened BinIndex
  import opened BinMaps
  import opened HeapLayout
  import opened HeapTrie
  import opened HeapBins
  import opened HeapNodes
  import opened HeapWalk
  import opened HeapUnlink
  import opened HeapEdits
  import opened HeapState
  import opened Words

  /** s is seated at q or below it. */
  ghost predicate Below(z: Bins, q: Pos, s: nat)
    requires s in z.pos
  {
    z.pos[s].bin == q.bin && q.depth <= z.pos[s].depth && q.depth <= Width(q.bin) && Pre(q.bin, s, q.depth) == q.pre
  }

  /** s is seated where only sizes larger than those below q are. */
  ghost predicate Beyond(z: Bins, q: Pos, s: nat)
    requires s in z.pos
  {
    z.pos[s].bin > q.bin || (z.pos[s].bin == q.bin && q.depth <= Width(q.bin) && Pre(q.bin, s, q.depth) > q.pre)
  }

  /** A size no larger than s has been chosen; 0 stands for no choice yet. */
  predicate Held(vs: nat, s: nat) {
    vs != 0 && vs <= s
  }

  /** The choice made so far and the remainder it leaves, the largest word if there is no choice. */
  ghost predicate PickOk(z: Bins, nb: nat, v: nat, rsize: nat, vs: nat) {
    && (vs == 0 ==> v == 0 && rsize == WORD - nb)
    && (vs != 0 ==> vs in z.pos && vs >= nb && v == Front(z, vs) && v != 0 && rsize == vs - nb)
  }

  /** Every seated size that fits is at least the choice. */
  ghost predicate Best(z: Bins, nb: nat, vs: nat) {
    forall s :: s in z.pos && s >= nb ==> Held(vs, s)
  }

  // ----- the descent

  /** qr is an occupied position of bin i just right of the path of nb. */
  ghost predicate RightOf(z: Bins, i: nat, nb: nat, qr: Pos) {
    qr in z.tree && qr.bin == i && qr.depth <= Width(i) && qr.pre > Pre(i, nb, qr.depth)
  }

  /** s is accounted for: held, at or right of qr, or in a later bin. */
  ghost predicate Aside(z: Bins, i: nat, vs: nat, s: nat, r: bool, qr: Pos)
    requires s in z.pos
  {
    Held(vs, s) || (r && (Below(z, qr, s) || Beyond(z, qr, s))) || z.pos[s].bin > i
  }

  ghost predicate Descending(z: Bins, i: nat, nb: nat, vs: nat, q: Pos, r: bool, qr: Pos) {
    && (r ==> RightOf(z, i, nb, qr) && qr.depth <= q.depth)
    && (forall s :: s in z.pos && s >= nb ==> Aside(z, i, vs, s, r, qr) || Below(z, q, s))
  }

  lemma {:induction false} PrefixAgree(b: nat, s: nat, t: nat, e: nat, d: nat)
    requires e <= d <= Width(b) && Pre(b, s, d) == Pre(b, t, d)
    ensures Pre(b, s, e) == Pre(b, t, e)
    decreases d
  {
    if e < d {
      PreHalf(b, s, d - 1);
      PreHalf(b, t, d - 1);
      PrefixAgree(b, s, t, e, d - 1);
    }
  }

  /** Right of the path at one depth is right of it, by more than one child, at every later depth. */
  lemma {:induction false} FarRight(b: nat, nb: nat, s: nat, e: nat, d: nat)
    requires e <= d < Width(b) && Pre(b, s, e) > Pre(b, nb, e)
    ensures Pre(b, s, d + 1) > 2 * Pre(b, nb, d) + 1
  {
    PreOrder(b, nb, s, e);
    PreOrder(b, nb, s, d);
    if Pre(b, nb, d) == Pre(b, s, d) { PrefixAgree(b, nb, s, e, d); }
    PreHalf(b, s, d);
  }

  /** Sizes of earlier bins are smaller. */
  lemma EarlierBin(z: Bins, s: nat, nb: nat)
    requires TreeShape(z) && s in z.pos && MIN_LARGE <= nb < ARENA
    ensures z.pos[s].bin < TreeIndex(nb) ==> s < nb
    ensures z.pos[s].bin > TreeIndex(nb) ==> s > nb
    ensures z.pos[s].bin == TreeIndex(s) && MIN_LARGE <= s < ARENA
  {
    assert NodeOk(z, s);
    TreeIndexInBin(s);
    TreeIndexInBin(nb);
    hide InBin;
    BinsOrdered(s, nb, TreeIndex(s), TreeIndex(nb));
    BinsOrdered(nb, s, TreeIndex(nb), TreeIndex(s));
  }

  lemma DescendStart(z: Bins, i: nat, nb: nat, q: Pos, qr: Pos)
    requires TreeShape(z) && MIN_LARGE <= nb < ARENA && i == TreeIndex(nb) && q == RootPos(i)
    ensures Descending(z, i, nb, 0, q, false, qr)
  {
    hide TreeShape;
    forall s | s in z.pos && s >= nb ensures Aside(z, i, 0, s, false, qr) || Below(z, q, s) {
      EarlierBin(z, s, nb);
      BelowRoot(z, s);
      hide TreeIndex;
    }
  }

  lemma BelowRoot(z: Bins, s: nat)
    requires TreeShape(z) && s in z.pos
    ensures z.pos[s].bin < NTREEBINS && Below(z, RootPos(z.pos[s].bin), s) && RootPos(z.pos[s].bin) in z.tree
  {
    assert NodeOk(z, s);
    TreeIndexInBin(s);
    RootPreOfBin(z.pos[s].bin, s);
    PathClosed(z, z.pos[s].bin, s, 0, z.pos[s].depth);
  }

  /** What lies below q is the node there, or below one of its children. */
  lemma BelowSplit(z: Bins, q: Pos, s: nat)
    requires TreeShape(z) && q in z.tree && s in z.pos && Below(z, q, s) && s != z.tree[q]
    ensures q.depth < Width(q.bin)
    ensures var b := Pre(q.bin, s, q.depth + 1) % 2;
      && Below(z, Down(q, b), s) && Down(q, b) in z.tree && Pre(q.bin, s, q.depth + 1) == 2 * q.pre + b
  {
    DeeperThan(z, q, s);
    hide TreeShape, Pre, Width, TreeIndex, Down, PathPos;
    NextOnPath(q, s);
    PathClosed(z, q.bin, s, q.depth + 1, z.pos[s].depth);
  }

  /** The next position on the way to s. */
  lemma NextOnPath(q: Pos, s: nat)
    requires q.depth < Width(q.bin) && Pre(q.bin, s, q.depth) == q.pre
    ensures var n := Pre(q.bin, s, q.depth + 1);
      && Down(q, n % 2) == PathPos(q.bin, s, q.depth + 1) && n == 2 * q.pre + n % 2 && Down(q, n % 2).bin == q.bin
      && Down(q, n % 2).depth == q.depth + 1 && Down(q, n % 2).pre == n
  {
    PreHalf(q.bin, s, q.depth);
    hide Pre, Width;
  }

  lemma DeeperThan(z: Bins, q: Pos, s: nat)
    requires TreeShape(z) && q in z.tree && s in z.pos && Below(z, q, s) && s != z.tree[q]
    ensures q.depth < z.pos[s].depth <= Width(q.bin) && z.pos[s] in z.tree
    ensures z.pos[s] == PathPos(q.bin, s, z.pos[s].depth)
  {
    hide Pre, Width, TreeIndex;
    assert NodeOk(z, s);
    var p := z.pos[s];
    assert p.depth == q.depth ==> p == q;
  }

  /** One step down the path of nb, away from a node of another size that has been considered. */
  lemma DescendStep(z: Bins, i: nat, nb: nat, vs: nat, q: Pos, r: bool, qr: Pos, c: nat, r': bool, qr': Pos)
    requires TreeShape(z) && OnPath(z, i, nb, q) && q.depth < Width(i) && Descending(z, i, nb, vs, q, r, qr)
    requires z.tree[q] >= nb ==> Held(vs, z.tree[q])
    requires c < 2 && Pre(i, nb, q.depth + 1) == 2 * q.pre + c
    requires if c == 0 && Down(q, 1) in z.tree then r' && qr' == Down(q, 1) else r' == r && qr' == qr
    ensures r' ==> RightOf(z, i, nb, qr') && qr'.depth <= q.depth + 1
    ensures Down(q, c) in z.tree ==> Descending(z, i, nb, vs, Down(q, c), r', qr')
    ensures Down(q, c) !in z.tree ==> forall s :: s in z.pos && s >= nb ==> Aside(z, i, vs, s, r', qr')
  {
    forall s | s in z.pos && s >= nb
      ensures Aside(z, i, vs, s, r', qr') || (Below(z, Down(q, c), s) && Down(q, c) in z.tree)
    {
      hide TreeShape, RightOf;
      StepOne(z, i, nb, vs, q, r, qr, c, r', qr', s);
    }
    hide TreeShape, Below, Beyond, Aside;
  }

  lemma StepOne(z: Bins, i: nat, nb: nat, vs: nat, q: Pos, r: bool, qr: Pos, c: nat, r': bool, qr': Pos, s: nat)
    requires TreeShape(z) && OnPath(z, i, nb, q) && q.depth < Width(i) && s in z.pos && s >= nb
    requires r ==> RightOf(z, i, nb, qr) && qr.depth <= q.depth
    requires Aside(z, i, vs, s, r, qr) || Below(z, q, s)
    requires z.tree[q] >= nb ==> Held(vs, z.tree[q])
    requires c < 2 && Pre(i, nb, q.depth + 1) == 2 * q.pre + c
    requires if c == 0 && Down(q, 1) in z.tree then r' && qr' == Down(q, 1) else r' == r && qr' == qr
    ensures Aside(z, i, vs, s, r', qr') || (Below(z, Down(q, c), s) && Down(q, c) in z.tree)
  {
    if Below(z, q, s) {
      if s != z.tree[q] {
        BelowSplit(z, q, s);
        PreOrder(i, nb, s, q.depth + 1);
      }
    } else if !Held(vs, s) && z.pos[s].bin == i {
      RightStays(z, i, nb, q, qr, s);
    }
    hide TreeShape;
  }

  lemma RightStays(z: Bins, i: nat, nb: nat, q: Pos, qr: Pos, s: nat)
    requires OnPath(z, i, nb, q) && q.depth < Width(i) && s in z.pos && z.pos[s].bin == i
    requires RightOf(z, i, nb, qr) && qr.depth <= q.depth && (Below(z, qr, s) || Beyond(z, qr, s))
    ensures Beyond(z, Down(q, 1), s)
  {
    FarRight(i, nb, s, qr.depth, q.depth);
  }

  // ----- the leftmost path

  /** Whatever may still beat the choice is below q, and everything below q fits. */
  ghost predicate Leftward(z: Bins, nb: nat, vs: nat, q: Pos) {
    && (forall s :: s in z.pos && s >= nb ==> Held(vs, s) || Below(z, q, s) || Beyond(z, q, s))
    && (vs == nb || forall s :: s in z.pos && Below(z, q, s) ==> s >= nb)
  }

  /** Below the deepest untaken right subtree everything exceeds nb. */
  lemma RightFits(z: Bins, i: nat, nb: nat, vs: nat, qr: Pos)
    requires TreeShape(z) && RightOf(z, i, nb, qr)
    requires forall s :: s in z.pos && s >= nb ==> Aside(z, i, vs, s, true, qr)
    ensures Leftward(z, nb, vs, qr)
  {
    forall s | s in z.pos && Below(z, qr, s) ensures s >= nb {
      PreOrder(i, nb, s, qr.depth);
    }
    hide TreeShape;
  }

  /** Nothing left in the bin and something held: no later bin can do better. */
  lemma BinExhausted(z: Bins, i: nat, nb: nat, vs: nat, qr: Pos)
    requires TreeShape(z) && MIN_LARGE <= nb < ARENA && i == TreeIndex(nb)
    requires forall s :: s in z.pos && s >= nb ==> Aside(z, i, vs, s, false, qr)
    requires vs != 0 ==> vs in z.pos && z.pos[vs].bin == i
    ensures vs != 0 ==> Best(z, nb, vs)
    ensures vs == 0 ==> forall s :: s in z.pos && s >= nb ==> z.pos[s].bin > i
  {
    if vs != 0 {
      forall s | s in z.pos && s >= nb ensures Held(vs, s) {
        EarlierBin(z, vs, nb);
        EarlierBin(z, s, nb);
        EarlierBin(z, vs, s);
      }
    }
  }

  /** The next non-empty bin holds the smallest sizes beyond bin i, all of which fit. */
  lemma NextBinFits(z: Bins, i: nat, nb: nat, j: nat)
    requires TreeShape(z) && MIN_LARGE <= nb < ARENA && i == TreeIndex(nb)
    requires forall s :: s in z.pos && s >= nb ==> z.pos[s].bin > i
    requires i < j < NTREEBINS && forall k :: i < k < j ==> RootPos(k) !in z.tree
    ensures Leftward(z, nb, 0, RootPos(j))
  {
    hide TreeShape, TreeIndex;
    forall s | s in z.pos ensures
      && (s >= nb ==> Below(z, RootPos(j), s) || Beyond(z, RootPos(j), s))
      && (Below(z, RootPos(j), s) ==> s >= nb)
    {
      BelowRoot(z, s);
      EarlierBin(z, s, nb);
    }
  }

  lemma NoNextBin(z: Bins, i: nat, nb: nat)
    requires TreeShape(z) && MIN_LARGE <= nb < ARENA && i == TreeIndex(nb)
    requires forall s :: s in z.pos && s >= nb ==> z.pos[s].bin > i
    requires forall k :: i < k < NTREEBINS ==> RootPos(k) !in z.tree
    ensures Best(z, nb, 0)
  {
    hide TreeShape, TreeIndex;
    forall s | s in z.pos && s >= nb ensures false {
      BelowRoot(z, s);
    }
  }

  /** The first non-empty bin of all, for a request below the large sizes. */
  lemma FirstBinFits(z: Bins, nb: nat, j: nat)
    requires TreeShape(z) && nb < MIN_LARGE
    requires j < NTREEBINS && forall k :: 0 <= k < j ==> RootPos(k) !in z.tree
    ensures Leftward(z, nb, 0, RootPos(j))
  {
    hide TreeShape;
    forall s | s in z.pos ensures
      && (Below(z, RootPos(j), s) || Beyond(z, RootPos(j), s))
      && s >= nb
    {
      BelowRoot(z, s);
      EarlierBin(z, s, MIN_LARGE);
    }
  }

  /** One step to the leftmost child, after the node at q has been considered. */
  lemma LeftStep(z: Bins, nb: nat, vs: nat, q: Pos, q': Pos)
    requires TreeShape(z) && q in z.tree && Leftward(z, nb, vs, q) && (z.tree[q] >= nb ==> Held(vs, z.tree[q]))
    requires q' == if Down(q, 0) in z.tree then Down(q, 0) else Down(q, 1)
    ensures q' in z.tree ==> Leftward(z, nb, vs, q')
    ensures q' !in z.tree ==> Best(z, nb, vs)
  {
    hide TreeShape;
    SeatedBelow(z, q);
    forall s | s in z.pos && s >= nb ensures Held(vs, s) || (q' in z.tree && (Below(z, q', s) || Beyond(z, q', s))) {
      if Beyond(z, q, s) {
        BeyondExceeds(z, q, s);
      } else if Below(z, q, s) && s != z.tree[q] {
        BelowSplit(z, q, s);
      }
    }
    if q' in z.tree {
      forall s | s in z.pos && Below(z, q', s) ensures Below(z, q, s) { BelowDown(z, q, q', s); }
    }
  }

  lemma BelowDown(z: Bins, q: Pos, q': Pos, s: nat)
    requires s in z.pos && Below(z, q', s) && (q' == Down(q, 0) || q' == Down(q, 1))
    ensures Below(z, q, s)
  {
    PreHalf(q.bin, s, q.depth);
  }

  lemma SeatedBelow(z: Bins, q: Pos)
    requires TreeShape(z) && q in z.tree
    ensures z.tree[q] in z.pos && z.pos[z.tree[q]] == q && Below(z, q, z.tree[q])
  {
    assert NodeOk(z, z.tree[q]);
  }

  /** Sizes beyond q exceed the size at q. */
  lemma BeyondExceeds(z: Bins, q: Pos, s: nat)
    requires TreeShape(z) && q in z.tree && s in z.pos && Beyond(z, q, s)
    ensures s > z.tree[q]
  {
    var u := z.tree[q];
    assert NodeOk(z, u);
    EarlierBin(z, s, u);
    if z.pos[s].bin == q.bin { PreOrder(q.bin, u, s, q.depth); }
  }

  // ----- the remainder test

  /** The remainder test picks a size exactly when it fits and is smaller than the choice. */
  lemma RemainderTest(z: Bins, nb: nat, v: nat, rsize: nat, vs: nat, u: nat)
    requires TreeShape(z) && PickOk(z, nb, v, rsize, vs) && u in z.pos && 0 < nb < ARENA
    ensures u < ARENA && rsize < WORD
    ensures Sub(u, nb) < rsize <==> u >= nb && (vs == 0 || u < vs)
    ensures u >= nb ==> Sub(u, nb) == u - nb
    ensures u > 0
  {
    assert NodeOk(z, u);
    assert vs != 0 ==> NodeOk(z, vs);
  }

  // ----- what the choice means for the chunks

  /** v is null if no binned chunk fits, and otherwise a binned chunk of minimal fitting size. */
  ghost predicate BestFit(l: Layout, z: Bins, nb: nat, v: nat) {
    && (v == 0 ==> forall x :: x in z.binned && x in l.chunks ==> l.chunks[x].size < nb)
    && (v != 0 ==> v in z.binned && v in l.chunks && nb <= l.chunks[v].size)
    && (v != 0 ==> forall x ::
        x in z.binned && x in l.chunks && nb <= l.chunks[x].size ==> l.chunks[v].size <= l.chunks[x].size)
  }

  lemma BestIsBestFit(l: Layout, m: Memory, smallmap: bv32, treemap: bv32, z: Bins, nb: nat, v: nat, rsize: nat,
                      vs: nat)
    requires LayoutOk(l) && BinsOk(l, m, smallmap, treemap, z) && nb >= MIN_LARGE
    requires PickOk(z, nb, v, rsize, vs) && Best(z, nb, vs)
    ensures BestFit(l, z, nb, v)
    ensures v != 0 ==> v in l.chunks && l.chunks[v].size == nb + rsize
  {
    forall x | x in z.binned && x in l.chunks && nb <= l.chunks[x].size ensures Held(vs, l.chunks[x].size) {
      LargeSeated(l, m, smallmap, treemap, z, x);
    }
    if vs != 0 { FrontBinned(l, m, smallmap, treemap, z, vs); }
    hide LayoutOk, BinsOk;
  }

  lemma FrontBinned(l: Layout, m: Memory, smallmap: bv32, treemap: bv32, z: Bins, s: nat)
    requires LayoutOk(l) && BinsOk(l, m, smallmap, treemap, z) && s in z.pos
    ensures Front(z, s) in z.binned && Front(z, s) in l.chunks && l.chunks[Front(z, s)].size == s
    ensures !IsSmall(s)
  {
    hide LayoutOk, RingsOk, LinksOk, WordsOk, ChainsOk, MapsOk;
    assert NodeOk(z, s);
    NodeHere(l, m, smallmap, treemap, z, z.pos[s]);
  }

  /** The size of a binned chunk of a large size is seated. */
  lemma LargeSeated(l: Layout, m: Memory, smallmap: bv32, treemap: bv32, z: Bins, x: nat)
    requires BinsOk(l, m, smallmap, treemap, z) && x in z.binned && x in l.chunks && l.chunks[x].size >= MIN_LARGE
    ensures l.chunks[x].size in z.pos
  {
    hide LinksOk, TreeShape, WordsOk, ChainsOk, MapsOk;
    assert MemberOk(l, z, x);
    assert RingOk(z, l.chunks[x].size);
  }

  lemma HasShape(l: Layout, m: Memory, smallmap: bv32, treemap: bv32, z: Bins)
    requires BinsOk(l, m, smallmap, treemap, z)
    ensures TreeShape(z)
  {}

  /** The node at q, read through the words of memory: its size and its two children. */
  ghost predicate Seen(m: Memory, z: Bins, q: Pos, t: nat) {
    && q in z.tree && t == Front(z, z.tree[q]) && t != 0
    && ChunkSize(Get(m, Head(t))) == z.tree[q] && z.tree[q] in z.pos && z.pos[z.tree[q]] == q
    && (Get(m, Child(t, 0)) != 0 <==> Down(q, 0) in z.tree) && (Get(m, Child(t, 1)) != 0 <==> Down(q, 1) in z.tree)
    && (Down(q, 0) in z.tree ==> Get(m, Child(t, 0)) == Front(z, z.tree[Down(q, 0)]) && q.depth < Width(q.bin))
    && (Down(q, 1) in z.tree ==> Get(m, Child(t, 1)) == Front(z, z.tree[Down(q, 1)]) && q.depth < Width(q.bin))
    && (Get(m, Child(t, 0)) != 0 ==> Get(m, Child(t, 0)) != Get(m, Child(t, 1)))
    && q.depth <= Width(q.bin) && q.bin < NTREEBINS
  }

  lemma See(l: Layout, m: Memory, smallmap: bv32, treemap: bv32, z: Bins, q: Pos)
    requires RowOk(l, m) && BinsOk(l, m, smallmap, treemap, z) && q in z.tree
    ensures Seen(m, z, q, Front(z, z.tree[q]))
  {
    hide LayoutOk, TagsOk, NoAdjacentFree, BinsOk, Get, Live, Seats, At, Reachable, PosOk, Front, ChunkSize,
      TreeIndex, Down;
    NodeHere(l, m, smallmap, treemap, z, q);
    ChildHere(l, m, smallmap, treemap, z, q, 0);
    ChildHere(l, m, smallmap, treemap, z, q, 1);
    SizesAreTagged(l, m, z);
    SizeHere(l, m, m, z, q);
    ChildrenDiffer(l, m, smallmap, treemap, z, q);
  }

  lemma ChildrenDiffer(l: Layout, m: Memory, smallmap: bv32, treemap: bv32, z: Bins, q: Pos)
    requires LayoutOk(l) && BinsOk(l, m, smallmap, treemap, z)
    ensures Down(q, 0) in z.tree && Down(q, 1) in z.tree ==>
      Front(z, z.tree[Down(q, 0)]) != Front(z, z.tree[Down(q, 1)])
  {
    hide LayoutOk, RingsOk, LinksOk, WordsOk, ChainsOk, MapsOk, TreeShape;
    SeatsOk(l, z);
    SeatsKeys(z);
    hide Front;
    assert Down(q, 0) != Down(q, 1);
  }

  /** The root word of a bin, and the map bit that announces it. */
  lemma SeeRoot(l: Layout, m: Memory, smallmap: bv32, treemap: bv32, z: Bins, i: nat)
    requires RowOk(l, m) && BinsOk(l, m, smallmap, treemap, z) && i < NTREEBINS
    ensures Get(m, Root(i)) != 0 <==> RootPos(i) in z.tree
    ensures Marked(treemap, i) <==> RootPos(i) in z.tree
    ensures RootPos(i) in z.tree ==> Get(m, Root(i)) == Front(z, z.tree[RootPos(i)])
  {
    hide LayoutOk, BinsOk, Get, Marked;
    RootHere(l, m, smallmap, treemap, z, i);
  }

  lemma DescendBetter(z: Bins, i: nat, nb: nat, vs: nat, vs': nat, q: Pos, r: bool, qr: Pos)
    requires Descending(z, i, nb, vs, q, r, qr) && vs' != 0 && (vs == 0 || vs' <= vs)
    ensures Descending(z, i, nb, vs', q, r, qr)
  {
    hide Below, Beyond, RightOf;
  }

  lemma LeftBetter(z: Bins, nb: nat, vs: nat, vs': nat, q: Pos)
    requires Leftward(z, nb, vs, q) && vs' != 0 && (vs == 0 || vs' < vs) && vs != nb
    ensures Leftward(z, nb, vs', q)
  {
    hide Below, Beyond;
  }

  lemma ExactLeftward(z: Bins, nb: nat, q: Pos)
    requires nb > 0
    ensures Leftward(z, nb, nb, q)
  {
    hide Below, Beyond;
  }

  lemma DownDeeper(q: Pos)
    ensures Down(q, 0).depth == q.depth + 1 && Down(q, 1).depth == q.depth + 1
    ensures Down(q, 0).bin == q.bin && Down(q, 1).bin == q.bin
  {}

  /** An empty bin leaves only the later ones. */
  lemma EmptyBin(z: Bins, i: nat, nb: nat)
    requires TreeShape(z) && MIN_LARGE <= nb < ARENA && i == TreeIndex(nb) && RootPos(i) !in z.tree
    ensures forall s :: s in z.pos && s >= nb ==> z.pos[s].bin > i
  {
    hide TreeShape, TreeIndex;
    forall s | s in z.pos && s >= nb ensures z.pos[s].bin > i {
      BelowRoot(z, s);
      EarlierBin(z, s, nb);
    }
  }

  lemma RootsMarked(l: Layout, m: Memory, smallmap: bv32, treemap: bv32, z: Bins)
    requires RowOk(l, m) && BinsOk(l, m, smallmap, treemap, z)
    ensures forall k :: 0 <= k < NTREEBINS ==> (RootPos(k) in z.tree <==> Marked(treemap, k))
  {
    hide LayoutOk, BinsOk, Marked;
    forall k | 0 <= k < NTREEBINS ensures RootPos(k) in z.tree <==> Marked(treemap, k) {
      SeeRoot(l, m, smallmap, treemap, z, k);
    }
  }

  /** The root of the first bin is a first choice for a small request. */
  lemma FirstPick(z: Bins, nb: nat, q: Pos)
    requires TreeShape(z) && q in z.tree && 0 < nb < MIN_LARGE && Front(z, z.tree[q]) != 0
    ensures z.tree[q] >= MIN_LARGE && PickOk(z, nb, Front(z, z.tree[q]), z.tree[q] - nb, z.tree[q])
    ensures Held(z.tree[q], z.tree[q])
    ensures Leftward(z, nb, 0, q) ==> Leftward(z, nb, z.tree[q], q)
  {
    hide TreeShape, Leftward, Front;
    SeatedBelow(z, q);
    SeatedSize(z, z.tree[q]);
    if Leftward(z, nb, 0, q) { LeftBetter(z, nb, 0, z.tree[q], q); }
  }

  lemma SeatedSize(z: Bins, s: nat)
    requires TreeShape(z) && s in z.pos
    ensures MIN_LARGE <= s < ARENA
  {
    assert NodeOk(z, s);
  }

  lemma BestSmall(l: Layout, m: Memory, smallmap: bv32, treemap: bv32, z: Bins, nb: nat, v: nat, rsize: nat, vs: nat)
    requires LayoutOk(l) && BinsOk(l, m, smallmap, treemap, z) && 0 < nb < MIN_LARGE && z.pos.Keys != {}
    requires PickOk(z, nb, v, rsize, vs) && Best(z, nb, vs)
    ensures BestFit(l, z, MIN_LARGE, v) && v != 0
    ensures v in l.chunks && l.chunks[v].size == nb + rsize && MIN_LARGE <= nb + rsize
  {
    HasShape(l, m, smallmap, treemap, z);
    PickLarge(z, nb, v, rsize, vs);
    hide BinsOk, LayoutOk, TreeShape;
    BestIsBestFit(l, m, smallmap, treemap, z, MIN_LARGE, v, vs - MIN_LARGE, vs);
  }

  lemma PickLarge(z: Bins, nb: nat, v: nat, rsize: nat, vs: nat)
    requires TreeShape(z) && nb < MIN_LARGE && z.pos.Keys != {} && PickOk(z, nb, v, rsize, vs) && Best(z, nb, vs)
    ensures vs >= MIN_LARGE && PickOk(z, MIN_LARGE, v, vs - MIN_LARGE, vs) && Best(z, MIN_LARGE, vs) && rsize == vs - nb
    ensures v != 0
  {
    var s :| s in z.pos.Keys;
    assert NodeOk(z, s) && Held(vs, s);
    assert NodeOk(z, vs);
    hide TreeShape;
  }
}
