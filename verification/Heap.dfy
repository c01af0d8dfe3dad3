/**
 * The allocator: its state record and the operations on bins, boundary tags, and requests.
 */
module Heap {
  import opened Basics
  import opened BinIndex
  import opened BinMaps
  import opened HeapLayout
  import opened HeapTrie
  import opened HeapBins
  import opened HeapRings
  import opened HeapNodes
  import opened HeapReplace
  import opened HeapOps
  import opened HeapWalk
  import opened HeapUnlink
  import opened HeapEdits
  import opened HeapState
  import opened HeapSearch
  import opened HeapTake
  import opened HeapGrow
  import opened HeapResize
  import opened HeapCaller
  import opened Words

  class Heap {
    var mem: Memory
    var smallmap: bv32
    var treemap: bv32
    var dv: nat
    var dvsize: nat
    var top: nat
    var topsize: nat
    var segBase: nat
    var segSize: nat
    var footprint: nat
    var maxFootprint: nat
    const heapStart: nat

    ghost var l: Layout
    ghost var z: Bins

    ghost predicate BinsValid()
      reads this
    {
      LayoutOk(l) && BinsOk(l, mem, smallmap, treemap, z)
    }

    /** The fields that describe top and the segment agree with the row. */
    ghost predicate Placed()
      reads this
    {
      && l.top == top && l.end == top + topsize
      && segBase == l.base && l.base == heapStart && segSize == l.end + TOP_FOOT - l.base && footprint == segSize
      && footprint <= maxFootprint
    }

    /** The heap invariant: row, tags, bins, designated victim and top agree. */
    ghost predicate Ready()
      reads this
    {
      && RowOk(l, mem) && BinsOk(l, mem, smallmap, treemap, z)
      && Placed() && DvOk(l, dv, dvsize) && z.binned == Binnable(l, dv)
    }

    /** Writes one word; w collects the words written since m0. */
    method Put(c: Cell, v: nat, ghost m0: Memory, ghost w: map<Cell, nat>) returns (ghost w': map<Cell, nat>)
      requires LayoutOk(l) && Live(l, c) && Writes(l, m0, mem, w)
      modifies this`mem
      ensures w' == w[c := v] && Writes(l, m0, mem, w')
    {
      StoreFrame(l, m0, mem, w, c, v);
      mem := mem[Addr(c) := v];
      w' := w[c := v];
    }

    // ----- small bins

    /** Links a free chunk into its small bin, behind the header. */
    method InsertSmallChunk(p: nat, s: nat)
      requires BinsValid() && IsSmall(s) && FreeOfSize(l, p, s) && p !in z.binned && s in z.rings
      modifies this`mem, this`smallmap, this`z
      ensures BinsValid() && z.binned == old(z.binned) + {p}
      ensures TagsSame(l, old(mem), mem) && UserSame(l, old(mem), mem)
    {
      hide BinsOk, LayoutOk, Get, Live, Mark, Marked, Header;
      ghost var m0, map0 := mem, smallmap;
      var i := SmallIndex(s);
      SmallRing(l, mem, smallmap, treemap, z, s);
      PushFacts(l, mem, smallmap, treemap, z, s, p);
      var b := Header(i);
      var f := b;
      if !Marked(smallmap, i) {
        smallmap := Mark(smallmap, i);
      } else {
        f := Get(mem, Fd(b));
      }
      ghost var w := Put(Fd(b), p, m0, map[]);
      w := Put(Bk(f), p, m0, w);
      w := Put(Fd(p), f, m0, w);
      w := Put(Bk(p), b, m0, w);
      SmallPushDone(l, z, m0, mem, map0, treemap, s, p, w);
      z := PushOn(z, s, p);
    }

    /** Unlinks a chunk from its small bin. The consistency checks on the way always pass. */
    method UnlinkSmallChunk(p: nat, s: nat)
      requires BinsValid() && p in z.binned && p in l.chunks && l.chunks[p].size == s && IsSmall(s)
      modifies this`mem, this`smallmap, this`z
      ensures BinsValid() && z.binned == old(z.binned) - {p}
      ensures TagsSame(l, old(mem), mem) && UserSame(l, old(mem), mem)
    {
      hide BinsOk, LayoutOk, Get, Live, Clear, Marked, Header;
      ghost var m0, map0 := mem, smallmap;
      ghost var s', j := BinnedOnRing(l, mem, smallmap, treemap, z, p);
      SmallRing(l, mem, smallmap, treemap, z, s);
      RingNeighbours(l, mem, smallmap, treemap, z, s, j);
      var f := Get(mem, Fd(p));
      var b := Get(mem, Bk(p));
      var i := SmallIndex(s);
      assert f == Header(i) || Get(mem, Bk(f)) == p;
      ghost var w: map<Cell, nat> := map[];
      if b == f {
        smallmap := Clear(smallmap, i);
      } else {
        assert b == Header(i) || Get(mem, Fd(b)) == p;
        w := Put(Bk(f), b, m0, w);
        w := Put(Fd(b), f, m0, w);
      }
      SmallDropDone(l, z, m0, mem, map0, treemap, s, j, w);
      z := DropAt(z, s, j);
    }

    /** Unlinks the first chunk of a marked small bin. */
    method UnlinkFirstSmallChunk(b: nat, p: nat, i: nat)
      requires BinsValid() && i < NBINS && Marked(smallmap, i) && b == Header(i) && p == Get(mem, Fd(b))
      modifies this`mem, this`smallmap, this`z
      ensures BinsValid() && p in old(z.binned) && z.binned == old(z.binned) - {p}
      ensures p in l.chunks && l.chunks[p].size == 8 * i
      ensures TagsSame(l, old(mem), mem) && UserSame(l, old(mem), mem)
    {
      hide BinsOk, LayoutOk, Get, Live, Clear, Marked, Header;
      ghost var m0, map0 := mem, smallmap;
      ghost var s := 8 * i;
      FirstOfSmall(l, mem, smallmap, treemap, z, i);
      RingNeighbours(l, mem, smallmap, treemap, z, s, 1);
      var f := Get(mem, Fd(p));
      ghost var w: map<Cell, nat> := map[];
      if b == f {
        smallmap := Clear(smallmap, i);
      } else {
        assert Get(mem, Bk(f)) == p;
        w := Put(Bk(f), b, m0, w);
        w := Put(Fd(b), f, m0, w);
      }
      SmallDropDone(l, z, m0, mem, map0, treemap, s, 1, w);
      z := DropAt(z, s, 1);
    }

    // ----- tree bins

    /**
     * Links a free chunk into its tree bin: as the first root, as a new leaf on the path of its size bits,
     * or behind the node of its own size. The walk ends because every step decides one more bit.
     */
    method InsertLargeChunk(x: nat, s: nat)
      requires BinsValid() && !IsSmall(s) && FreeOfSize(l, x, s) && x !in z.binned && s < ARENA
      requires SizesTagged(l, mem, z)
      modifies this`mem, this`treemap, this`z
      ensures BinsValid() && z.binned == old(z.binned) + {x}
      ensures TagsSame(l, old(mem), mem) && UserSame(l, old(mem), mem)
    {
      hide BinsOk, LayoutOk, Get, Live, Mark, Marked, PosOk, Seats, NodeIs, Reachable;
      ghost var m0 := mem;
      var i := TreeIndex(s);
      ChunkCells(l, x, s);
      ghost var w := Put(Index(x), i, m0, map[]);
      w := Put(Child(x, 1), 0, m0, w);
      w := Put(Child(x, 0), 0, m0, w);
      FreshFrame(l, m0, mem, smallmap, treemap, z, i, x);
      RootHere(l, mem, smallmap, treemap, z, i);
      if !Marked(treemap, i) {
        InsertRoot(x, s, i, m0, w);
      } else {
        InsertBelow(x, s, i, m0, w);
      }
    }

    /** The first chunk of a tree bin. */
    method InsertRoot(x: nat, s: nat, i: nat, ghost m0: Memory, ghost w0: map<Cell, nat>)
      requires LayoutOk(l) && BinsOk(l, m0, smallmap, treemap, z) && BinsOk(l, mem, smallmap, treemap, z)
      requires !IsSmall(s) && FreeOfSize(l, x, s) && x !in z.binned && s < ARENA && i == TreeIndex(s)
      requires SizesTagged(l, m0, z) && TagsSame(l, m0, mem)
      requires w0 == FreshWords(i, x) && Writes(l, m0, mem, w0) && RootPos(i) !in z.tree && !Marked(treemap, i)
      modifies this`mem, this`treemap, this`z
      ensures BinsValid() && z.binned == old(z.binned) + {x}
      ensures TagsSame(l, m0, mem) && UserSame(l, m0, mem)
    {
      hide BinsOk, LayoutOk, Get, Live, Mark, Marked, PosOk, Seats, NodeIs, Reachable;
      ChunkCells(l, x, s);
      RootSpot(l, mem, smallmap, treemap, z, i, s);
      ghost var w := Put(Root(i), x, m0, w0);
      w := Put(Parent(x), Addr(Root(i)), m0, w);
      w := Put(Bk(x), x, m0, w);
      w := Put(Fd(x), x, m0, w);
      NewNodeDone(l, m0, mem, smallmap, treemap, z, RootPos(i), s, x, w);
      treemap := Mark(treemap, i);
      z := NewNode(z, RootPos(i), s, x);
    }

    method InsertBelow(x: nat, s: nat, i: nat, ghost m0: Memory, ghost w0: map<Cell, nat>)
      requires LayoutOk(l) && BinsOk(l, m0, smallmap, treemap, z) && BinsOk(l, mem, smallmap, treemap, z)
      requires !IsSmall(s) && FreeOfSize(l, x, s) && x !in z.binned && s < ARENA && i == TreeIndex(s)
      requires SizesTagged(l, m0, z) && TagsSame(l, m0, mem)
      requires w0 == FreshWords(i, x) && Writes(l, m0, mem, w0) && RootPos(i) in z.tree
      modifies this`mem, this`z
      ensures BinsValid() && z.binned == old(z.binned) + {x}
      ensures TagsSame(l, m0, mem) && UserSame(l, m0, mem)
    {
      hide BinsOk, LayoutOk, Get, Live, PosOk, Seats, NodeIs, Reachable;
      ChunkCells(l, x, s);
      RootHere(l, mem, smallmap, treemap, z, i);
      RootOnPath(z, i, s);
      var t := Get(mem, Root(i));
      var k := Shl(s, LeftShift(i));
      ghost var q := RootPos(i);
      while true
        invariant LayoutOk(l) && BinsOk(l, m0, smallmap, treemap, z) && BinsOk(l, mem, smallmap, treemap, z)
        invariant mem == old(mem) && z == old(z)
        invariant OnPath(z, i, s, q) && t == Front(z, z.tree[q]) && k == Undecided(i, s, q.depth)
        invariant s in z.pos ==> z.pos[s].depth >= q.depth
        decreases Width(i) - q.depth
      {
        NodeHere(l, mem, smallmap, treemap, z, q);
        SizeHere(l, m0, mem, z, q);
        if ChunkSize(Get(mem, Head(t))) != s {
          StepFacts(l, mem, smallmap, treemap, z, i, s, q, k);
          var c := Child(t, SignBit(k));
          ghost var p := Down(q, SignBit(k));
          k := ShiftOne(k);
          var n := Get(mem, c);
          if n != 0 {
            t := n;
            q := p;
          } else {
            HangLeaf(c, x, s, i, t, m0, p, w0);
            return;
          }
        } else {
          JoinRing(t, x, s, m0, w0);
          return;
        }
      }
    }

    /** Writes a new leaf of its size into the slot c, which is that of the position p. */
    method HangLeaf(c: Cell, x: nat, s: nat, ghost i: nat, t: nat, ghost m0: Memory, ghost p: Pos, ghost w0: map<Cell,
                    nat>)
      requires LayoutOk(l) && BinsOk(l, m0, smallmap, treemap, z)
      requires !IsSmall(s) && FreeOfSize(l, x, s) && x !in z.binned && w0 == FreshWords(i, x) && Writes(l, m0, mem, w0)
      requires p !in z.tree && s !in z.pos && PosOk(s, p) && Reachable(Seats(z), p) && p.bin == i && p.depth > 0
      requires Slot(Seats(z), p) == c && ParentOf(Seats(z), p) == t && Live(l, c)
      modifies this`mem, this`z
      ensures BinsValid() && z.binned == old(z.binned) + {x}
      ensures TagsSame(l, m0, mem) && UserSame(l, m0, mem)
    {
      hide BinsOk, LayoutOk, Get, Live, PosOk, Seats, Reachable, Slot, ParentOf, TagsSame, UserSame, Writes, IsSmall,
        FreeOfSize;
      ChunkCells(l, x, s);
      ghost var w := Put(c, x, m0, w0);
      w := Put(Parent(x), t, m0, w);
      w := Put(Bk(x), x, m0, w);
      w := Put(Fd(x), x, m0, w);
      NewNodeDone(l, m0, mem, smallmap, treemap, z, p, s, x, w);
      z := NewNode(z, p, s, x);
    }

    /** Puts a chunk on the ring of the node t of its size. */
    method JoinRing(t: nat, x: nat, s: nat, ghost m0: Memory, ghost w0: map<Cell, nat>)
      requires LayoutOk(l) && BinsOk(l, m0, smallmap, treemap, z) && BinsOk(l, mem, smallmap, treemap, z)
      requires !IsSmall(s) && FreeOfSize(l, x, s) && x !in z.binned && TreeIndex(s) < NTREEBINS
      requires w0 == FreshWords(TreeIndex(s), x) && Writes(l, m0, mem, w0)
      requires s in z.rings && s in z.pos && |z.rings[s]| > 0 && z.rings[s][0] == t
      modifies this`mem, this`z
      ensures BinsValid() && z.binned == old(z.binned) + {x}
      ensures TagsSame(l, m0, mem) && UserSame(l, m0, mem)
    {
      hide BinsOk, LayoutOk, Get, Live, TagsSame, UserSame, Writes, IsSmall, FreeOfSize, TreeIndex;
      ChunkCells(l, x, s);
      RingNeighbours(l, mem, smallmap, treemap, z, s, 0);
      var f := Get(mem, Fd(t));
      ghost var w := Put(Bk(f), x, m0, w0);
      w := Put(Fd(t), x, m0, w);
      w := Put(Fd(x), f, m0, w);
      w := Put(Bk(x), t, m0, w);
      w := Put(Parent(x), 0, m0, w);
      LargePushDone(l, z, m0, mem, smallmap, treemap, s, x, w);
      z := PushOn(z, s, x);
    }

    /** Puts r, or null, where x is: in the slot above it, and as parent of its children. */
    method Reseat(x: nat, r: nat, xp: nat, ghost a: Seating, ghost p: Pos) returns (ghost w: map<Cell, nat>)
      requires LayoutOk(l) && SeatToLeave(l, mem, a, p, x) && xp == Get(mem, Parent(x))
      requires r != 0 ==> ReadyToSeat(l, mem, a, p, x, r)
      modifies this`mem, this`treemap
      ensures w == ReseatWords(a, p, r) && Writes(l, old(mem), mem, w)
      ensures treemap == if r == 0 && p.depth == 0 && p.bin < NBINS then Clear(old(treemap), p.bin) else old(treemap)
    {
      hide LayoutOk, Get, Live, Clear, Down, Up, UserSame;
      ghost var m1 := mem;
      w := map[];
      var h := Get(mem, Index(x));
      if x == Get(mem, Root(h)) {
        w := Put(Root(h), r, m1, w);
        if r == 0 {
          treemap := Clear(treemap, h);
        }
      } else if Get(mem, Child(xp, 0)) == x {
        w := Put(Child(xp, 0), r, m1, w);
      } else {
        w := Put(Child(xp, 1), r, m1, w);
      }
      assert w == map[Slot(a, p) := r];
      if r != 0 {
        w := Put(Parent(r), xp, m1, w);
        assert w == map[Slot(a, p) := r, Parent(r) := ParentOf(a, p)];
        w := AdoptChild(x, r, 0, a, p, m1, w);
        w := AdoptChild(x, r, 1, a, p, m1, w);
      }
    }

    /** Moves child i of x over to r. */
    method AdoptChild(x: nat, r: nat, i: nat, ghost a: Seating, ghost p: Pos, ghost m1: Memory, ghost w: map<Cell, nat>)
      returns (ghost w': map<Cell, nat>)
      requires LayoutOk(l) && i < 2 && Writes(l, m1, mem, w) && Child(x, i) !in w
      requires Live(l, Child(x, i)) && Live(l, Child(r, i)) && ChildApart(l, a, p, i, x, r)
      requires Get(m1, Child(x, i)) == At(a, Down(p, i))
      modifies this`mem
      ensures w' == w + ChildWords(a, p, i, r) && Writes(l, m1, mem, w')
    {
      hide LayoutOk, Get, Live, Down, UserSame;
      w' := w;
      var c := Get(mem, Child(x, i));
      if c != 0 {
        w' := Put(Child(r, i), c, m1, w');
        w' := Put(Parent(c), r, m1, w');
      }
    }

    /** Closes the ring around x and names the chunk before it. */
    method CloseRing(x: nat, ghost s: nat, ghost j: nat) returns (r: nat)
      requires BinsValid() && s in z.rings && !IsSmall(s) && j < |z.rings[s]| && |z.rings[s]| > 1 && z.rings[s][j] == x
      modifies this`mem
      ensures r == z.rings[s][Prev(z.rings[s], j)] && Writes(l, old(mem), mem, DropWords(z.rings[s], j))
    {
      hide BinsOk, LayoutOk, Get, Live;
      ghost var m0 := mem;
      RingNeighbours(l, mem, smallmap, treemap, z, s, j);
      var f := Get(mem, Fd(x));
      r := Get(mem, Bk(x));
      assert Get(mem, Bk(f)) == x && Get(mem, Fd(r)) == x;
      ghost var w := Put(Bk(f), r, m0, map[]);
      w := Put(Fd(r), f, m0, w);
    }

    /** Finds a leaf below the single chunk x of its size, rightmost first, and clears the word that points at it. */
    method DetachLeaf(x: nat, ghost s: nat) returns (r: nat, ghost t: nat)
      requires BinsValid() && s in z.rings && !IsSmall(s) && |z.rings[s]| == 1 && z.rings[s][0] == x && s in z.pos
      modifies this`mem
      ensures r == 0 ==> mem == old(mem) && Down(z.pos[s], 0) !in z.tree && Down(z.pos[s], 1) !in z.tree
      ensures r != 0 ==>
        && t in z.pos && Replaceable(z, s, t) && r == Front(z, t)
        && Writes(l, old(mem), mem, map[Slot(Seats(z), z.pos[t]) := 0])
    {
      hide BinsOk, LayoutOk, Get, Live, Seats, Down, Replaceable, Front, Under;
      ghost var m0 := mem;
      ghost var p := z.pos[s];
      t := s;
      ParentTells(l, mem, smallmap, treemap, z, s, 0);
      ChildHere(l, mem, smallmap, treemap, z, p, 0);
      ChildHere(l, mem, smallmap, treemap, z, p, 1);
      UnderSelf(p);
      var rp := Child(x, 1);
      r := Get(mem, rp);
      ghost var q := Down(p, 1);
      if r == 0 {
        rp := Child(x, 0);
        r := Get(mem, rp);
        q := Down(p, 0);
      }
      if r != 0 {
        DownFacts(p, 0);
        DownFacts(p, 1);
        UnderStep(p, p, 0);
        UnderStep(p, p, 1);
        while true
          invariant mem == m0 && BinsValid()
          invariant q in z.tree && r == Front(z, z.tree[q]) && r != 0 && rp == Slot(Seats(z), q) && Live(l, rp)
          invariant Under(p, q) && q.depth > p.depth && q.depth <= Width(q.bin) && q.bin == p.bin
          decreases Width(p.bin) - q.depth
        {
          ChildHere(l, mem, smallmap, treemap, z, q, 0);
          ChildHere(l, mem, smallmap, treemap, z, q, 1);
          DownFacts(q, 0);
          DownFacts(q, 1);
          ghost var q' := Down(q, 1);
          var cp := Child(r, 1);
          if Get(mem, cp) == 0 {
            cp := Child(r, 0);
            q' := Down(q, 0);
          }
          if Get(mem, cp) == 0 {
            break;
          }
          UnderStep(p, q, q'.pre % 2);
          rp := cp;
          r := Get(mem, rp);
          q := q';
        }
        LeafFits(l, mem, smallmap, treemap, z, s, q);
        NodeHere(l, mem, smallmap, treemap, z, q);
        t := z.tree[q];
        ghost var w := Put(rp, 0, m0, map[]);
      }
    }

    /**
     * Unlinks a chunk from its tree bin. Its ring partner takes its place, or else a leaf of its own subtree,
     * or else the place is left empty.
     */
    method UnlinkLargeChunk(x: nat)
      requires BinsValid() && x in z.binned && x in l.chunks && !IsSmall(l.chunks[x].size)
      modifies this`mem, this`treemap, this`z
      ensures BinsValid() && z.binned == old(z.binned) - {x}
      ensures TagsSame(l, old(mem), mem) && UserSame(l, old(mem), mem)
    {
      hide BinsOk, LayoutOk, Get, Live, Seats, Down, Replaceable, Front, SeatToLeave, ReadyToSeat, ReseatWords,
        TagsSame, UserSame, Writes, IsSmall, DropWords;
      ghost var m0 := mem;
      ghost var s, j := BinnedOnRing(l, mem, smallmap, treemap, z, x);
      ParentTells(l, mem, smallmap, treemap, z, s, j);
      RingNeighbours(l, mem, smallmap, treemap, z, s, j);
      var xp := Get(mem, Parent(x));
      if Get(mem, Bk(x)) != x {
        var r := CloseRing(x, s, j);
        if xp != 0 {
          PromoteReady(l, z, m0, mem, smallmap, treemap, s);
          ParentKept(l, z, m0, mem, smallmap, treemap, s, j, xp);
          ghost var m1 := mem;
          ghost var w := Reseat(x, r, xp, Seats(z), z.pos[s]);
          PromoteDone(l, z, m0, m1, mem, smallmap, treemap, s);
          z := Promote(z, s);
        } else {
          ChainedDropDone(l, z, m0, mem, smallmap, treemap, s, j);
          z := DropAt(z, s, j);
        }
      } else {
        var r, t := DetachLeaf(x, s);
        ghost var m1 := mem;
        if r == 0 {
          SingleLeaving(l, z, m0, smallmap, treemap, s);
          ghost var map0 := treemap;
          ghost var w := Reseat(x, 0, xp, Seats(z), z.pos[s]);
          RemoveDone(l, z, m0, mem, smallmap, map0, s);
          z := RemoveNode(z, s);
        } else {
          ReplaceReady(l, z, m0, m1, smallmap, treemap, s, t);
          ReplaceParentKept(l, z, m0, m1, smallmap, treemap, s, t);
          ghost var w := Reseat(x, r, xp, Without(z, t), z.pos[s]);
          ReplaceDone(l, z, m0, m1, mem, smallmap, treemap, s, t);
          z := ReplaceByLeaf(z, s, t);
        }
      }
    }

    // ----- relays and boundary tags

    method InsertChunk(p: nat, s: nat)
      requires RowOk(l, mem) && BinsOk(l, mem, smallmap, treemap, z)
      requires FreeAt(l, p) && l.chunks[p].size == s && p !in z.binned
      modifies this`mem, this`smallmap, this`treemap, this`z
      ensures RowOk(l, mem) && BinsOk(l, mem, smallmap, treemap, z) && z.binned == old(z.binned) + {p}
      ensures UserSame(l, old(mem), mem)
    {
      hide BinsOk, LayoutOk, TagsOk, NoAdjacentFree, IsSmall, SizesTagged, UserSame, TagsSame;
      ReadChunk(l, mem, p);
      ChunkPositive(l, p);
      ghost var m0 := mem;
      if IsSmall(s) {
        SmallKey(l, mem, smallmap, treemap, z, s);
        InsertSmallChunk(p, s);
      } else {
        SizesAreTagged(l, mem, z);
        InsertLargeChunk(p, s);
      }
      RowKept(l, m0, mem);
    }

    method UnlinkChunk(p: nat, s: nat)
      requires RowOk(l, mem) && BinsOk(l, mem, smallmap, treemap, z)
      requires p in z.binned && p in l.chunks && l.chunks[p].size == s
      modifies this`mem, this`smallmap, this`treemap, this`z
      ensures RowOk(l, mem) && BinsOk(l, mem, smallmap, treemap, z) && z.binned == old(z.binned) - {p}
      ensures UserSame(l, old(mem), mem) && TagsSame(l, old(mem), mem)
    {
      hide BinsOk, LayoutOk, TagsOk, NoAdjacentFree, IsSmall, UserSame, TagsSame;
      ghost var m0 := mem;
      if IsSmall(s) {
        UnlinkSmallChunk(p, s);
      } else {
        UnlinkLargeChunk(p);
      }
      RowKept(l, m0, mem);
    }

    method SetSizeAndPinuseOfFreeChunk(p: nat, s: nat, ghost m0: Memory, ghost w: map<Cell, nat>)
      returns (ghost w': map<Cell, nat>)
      requires LayoutOk(l) && Live(l, Head(p)) && Live(l, Foot(p + s)) && Writes(l, m0, mem, w)
      modifies this`mem
      ensures w' == w[Head(p) := Tag(s, false, true)][Foot(p + s) := s] && Writes(l, m0, mem, w')
    {
      hide LayoutOk, Live, Writes;
      w' := Put(Head(p), Tag(s, false, true), m0, w);
      w' := Put(Foot(p + s), s, m0, w');
    }

    method SetFreeWithPinuse(p: nat, s: nat, n: nat, ghost m0: Memory) returns (ghost w: map<Cell, nat>)
      requires LayoutOk(l) && Live(l, Head(p)) && Live(l, Foot(p + s)) && Live(l, Head(n)) && m0 == mem && n == p + s
      requires s > 0
      modifies this`mem
      ensures w == FreeWords(p, n)[Head(n) := WithoutPinuse(Get(m0, Head(n)))] && Writes(l, m0, mem, w)
    {
      hide LayoutOk, Live;
      w := Put(Head(n), WithoutPinuse(Get(mem, Head(n))), m0, map[]);
      w := SetSizeAndPinuseOfFreeChunk(p, s, m0, w);
      assert w == FreeWords(p, n)[Head(n) := WithoutPinuse(Get(m0, Head(n)))];
    }

    // ----- freeing

    /** Tags the stretch [lo, hi) around the used chunk p as one free chunk. */
    method TagFree(lo: nat, s: nat, hi: nat, ghost p: nat)
      requires RowOk(l, mem) && BinsOk(l, mem, smallmap, treemap, z) && Merging(l, lo, p, hi) && hi == lo + s
      requires hi in l.chunks && l.chunks[hi].used && Pinuse(Get(mem, Head(lo)))
      requires lo !in z.binned && EndOf(l, p) !in z.binned
      modifies this`mem, this`l
      ensures l == One(old(l), lo, hi, false)
      ensures RowOk(l, mem) && BinsOk(l, mem, smallmap, treemap, z) && UserSame(l, old(mem), mem)
    {
      hide BinsOk, LayoutOk, TagsOk, NoAdjacentFree, UserSame, Get, Live, Writes, Pinuse, WithoutPinuse, One;
      FreeLive(l, lo, hi);
      ghost var l1, m1 := l, mem;
      l := One(l, lo, hi, false);
      ghost var w := SetFreeWithPinuse(lo, s, hi, m1);
      FreedRow(l1, lo, hi, m1, mem, w);
      FreedBins(l1, lo, p, hi, m1, mem, w, smallmap, treemap, z);
    }

    /** Does the same when the chunk at hi already follows a free chunk. */
    method TagFreeKept(lo: nat, s: nat, ghost hi: nat, ghost p: nat)
      requires RowOk(l, mem) && BinsOk(l, mem, smallmap, treemap, z) && Merging(l, lo, p, hi) && hi == lo + s
      requires hi in l.chunks && l.chunks[hi].used && Pinuse(Get(mem, Head(lo))) && !Pinuse(Get(mem, Head(hi)))
      requires lo !in z.binned && EndOf(l, p) !in z.binned
      modifies this`mem, this`l
      ensures l == One(old(l), lo, hi, false)
      ensures RowOk(l, mem) && BinsOk(l, mem, smallmap, treemap, z) && UserSame(l, old(mem), mem)
    {
      hide BinsOk, LayoutOk, TagsOk, NoAdjacentFree, UserSame, Get, Live, Writes, Pinuse, WithoutPinuse, One;
      FreeLive(l, lo, hi);
      ghost var l1, m1 := l, mem;
      l := One(l, lo, hi, false);
      WritesNone(l, mem);
      ghost var w := SetSizeAndPinuseOfFreeChunk(lo, s, m1, map[]);
      assert w == FreeWords(lo, hi);
      FreedRow(l1, lo, hi, m1, mem, w);
      FreedBins(l1, lo, p, hi, m1, mem, w, smallmap, treemap, z);
    }

    /** Extends top down to lo, where the used chunk p in front of top, or a free chunk in front of p, starts. */
    method TagTop(lo: nat, tsize: nat, ghost p: nat)
      requires RowOk(l, mem) && BinsOk(l, mem, smallmap, treemap, z) && Backed(l, lo, p) && EndOf(l, p) == l.top
      requires l.end == lo + tsize
      requires Pinuse(Get(mem, Head(lo))) && lo !in z.binned
      modifies this`mem, this`l
      ensures lo in old(l).chunks && l == TopGive(old(l), lo)
      ensures RowOk(l, mem) && BinsOk(l, mem, smallmap, treemap, z) && UserSame(l, old(mem), mem)
    {
      hide BinsOk, LayoutOk, TagsOk, NoAdjacentFree, UserSame, Get, Live, Writes, Pinuse, TopGive;
      BackedBounds(l, lo, p);
      TopGiveLive(l, lo);
      ghost var l1, m1 := l, mem;
      l := TopGive(l, lo);
      WritesNone(l, mem);
      ghost var w := Put(Head(lo), Tag(tsize, false, true), m1, map[]);
      assert w == TopFreeWords(l1, lo);
      TopFreedRow(l1, lo, m1, mem);
      TopFreedBins(l1, lo, p, m1, mem, w, smallmap, treemap, z);
    }

    /** The state while the used chunk p0 is being freed: what lies at [p, next) has left the bins. */
    ghost predicate Freeing(p: nat, psize: nat, next: nat, p0: nat)
      reads this
    {
      && RowOk(l, mem) && BinsOk(l, mem, smallmap, treemap, z)
      && Placed() && DvOk(l, dv, dvsize)
      && Backed(l, p, p0) && next == EndOf(l, p0) && next == p + psize
      && z.binned == Binnable(l, dv) - {p} && Pinuse(Get(mem, Head(p)))
      && (p == dv ==> next == l.top || FreeAt(l, next))
    }

    /** Merges [p, dv) into the designated victim that follows. */
    method MergeIntoDv(p: nat, psize: nat, ghost p0: nat)
      requires Freeing(p, psize, dv, p0) && FreeAt(l, dv) && p != dv
      modifies this`mem, this`dv, this`dvsize, this`l
      ensures Ready() && Blocks(l) == Blocks(old(l)) - {p0}
      ensures l.base == old(l).base && l.end == old(l).end
      ensures UserSame(l, old(mem), mem)
    {
      hide BinsOk, LayoutOk, TagsOk, NoAdjacentFree, UserSame, Get, Live, Writes, One, Binnable, Blocks, Pinuse,
        Cinuse, ChunkSize, Stretch, Merging;
      ghost var hi := EndOf(l, dv);
      MergeFree(l, p, p0);
      ReadNext(l, mem, dv);
      NotBinnable(l, dv, dv);
      AfterMerge(l, p, p0, hi, dv, dvsize, z.binned);
      dvsize := dvsize + psize;
      dv := p;
      TagFreeKept(p, dvsize, hi, p0);
    }

    /** Takes the free chunk behind the freed one out of its bin and tags the merged chunk. */
    method AbsorbNext(p: nat, psize: nat, next: nat, nsize: nat, ghost p0: nat)
      requires psize >= nsize && Freeing(p, psize - nsize, next, p0) && FreeAt(l, next) && next != dv
      requires l.chunks[next].size == nsize
      modifies this`mem, this`smallmap, this`treemap, this`l, this`z
      ensures p < p + psize && l == One(old(l), p, p + psize, false)
      ensures Searchable() && Placed() && UserSame(l, old(mem), mem) && Blocks(l) == Blocks(old(l)) - {p0}
      ensures FreeAt(l, p) && l.chunks[p].size == psize && p !in z.binned
      ensures if p == dv then DvOk(l, dv, psize) && z.binned == Binnable(l, dv)
        else DvOk(l, dv, dvsize) && z.binned + {p} == Binnable(l, dv)
    {
      hide BinsOk, LayoutOk, TagsOk, NoAdjacentFree, UserSame, TagsSame, Get, Live, Writes, One, Binnable, Blocks,
        Pinuse, Cinuse, ChunkSize, Stretch, Merging;
      ghost var m0, l0, hi := mem, l, EndOf(l, next);
      MergeFree(l, p, p0);
      ReadNext(l, mem, next);
      InBinnable(l, dv, next);
      BackedBounds(l, p, p0);
      UnlinkChunk(next, nsize);
      HeadsSame(l, m0, mem, p);
      HeadsSame(l, m0, mem, hi);
      AfterMerge(l, p, p0, hi, dv, dvsize, z.binned);
      ghost var m1 := mem;
      TagFreeKept(p, psize, hi, p0);
      UserAcross(l0, l, m0, m1, mem);
    }

    /** Merges forward and stores the result. */
    method MergeForward(p: nat, psize0: nat, next: nat, ghost p0: nat)
      requires Freeing(p, psize0, next, p0)
      modifies this`mem, this`smallmap, this`treemap, this`dv, this`dvsize, this`top, this`topsize, this`l, this`z
      ensures Ready() && Blocks(l) == Blocks(old(l)) - {p0}
      ensures l.base == old(l).base && l.end == old(l).end
      ensures UserSame(l, old(mem), mem)
    {
      hide BinsOk, LayoutOk, TagsOk, NoAdjacentFree, UserSame, TagsSame, Get, Live, Writes, One, TopGive, Binnable,
        Blocks, Pinuse, Cinuse, ChunkSize, Stretch, Merging;
      ghost var m0, l0 := mem, l;
      var psize := psize0;
      BackedBounds(l, p, p0);
      ReadNext(l, mem, p0);
      NotBinnable(l, dv, next);
      if !Cinuse(Get(mem, Head(next))) {
        if next == top {
          AfterTopMerge(l, p, p0, dv, dvsize, z.binned);
          topsize := topsize + psize;
          top := p;
          TagTop(p, topsize, p0);
          if p == dv {
            dv, dvsize := 0, 0;
          }
          return;
        }
        if next == dv {
          MergeIntoDv(p, psize, p0);
          return;
        }
        ReadChunk(l, mem, next);
        var nsize := ChunkSize(Get(mem, Head(next)));
        psize := psize + nsize;
        AbsorbNext(p, psize, next, nsize, p0);
        if p == dv {
          dvsize := psize;
          return;
        }
      } else {
        MergeUsed(l, p, p0);
        AfterMerge(l, p, p0, next, dv, dvsize, z.binned);
        TagFree(p, psize, next, p0);
      }
      ghost var m2 := mem;
      InsertChunk(p, psize);
      UserTwice(l, m0, m2, mem);
    }

    /**
     * Returns a used chunk to the heap: merges it with free neighbours and puts the result into top, into
     * the designated victim, or into its bin.
     */
    method Consolidate(p0: nat, psize0: nat)
      requires Ready() && p0 in l.chunks && l.chunks[p0].used && l.chunks[p0].size == psize0
      modifies this`mem, this`smallmap, this`treemap, this`dv, this`dvsize, this`top, this`topsize, this`l, this`z
      ensures Ready() && Blocks(l) == Blocks(old(l)) - {p0}
      ensures l.base == old(l).base && l.end == old(l).end
      ensures UserSame(l, old(mem), mem)
    {
      hide BinsOk, LayoutOk, TagsOk, NoAdjacentFree, UserSame, TagsSame, Get, Live, Writes, One, Binnable, Blocks,
        Pinuse, Cinuse, ChunkSize, Stretch, Merging;
      ghost var m0, l0 := mem, l;
      var p, psize := p0, psize0;
      var next := p + psize;
      ReadChunk(l, mem, p0);
      ReadNext(l, mem, p0);
      UserStays(l, mem);
      NotBinnable(l, dv, p0);
      if !Pinuse(Get(mem, Head(p))) {
        ReadPrev(l, mem, p);
        var prevsize := Get(mem, Foot(p));
        var prev := p - prevsize;
        psize := psize + prevsize;
        p := prev;
        if p != dv {
          InBinnable(l, dv, p);
          UnlinkChunk(p, prevsize);
          FreePinuse(l, mem, p);
        } else if Pinuse(Get(mem, Head(next))) && Cinuse(Get(mem, Head(next))) {
          NotBinnable(l, dv, p);
          NotBinnable(l, dv, next);
          MergeUsed(l, p, p0);
          AfterMerge(l, p, p0, next, dv, dvsize, z.binned);
          dvsize := psize;
          TagFree(p, psize, next, p0);
          return;
        } else {
          NotBinnable(l, dv, p);
        }
      }
      ghost var m1 := mem;
      MergeForward(p, psize, next, p0);
      BlocksFewer(l0, l, p0);
      UserAcross(l0, l, m0, m1, mem);
    }

    // ----- best-fit search

    /** What the search methods read: rows, tags and bins agree. */
    ghost predicate Searchable()
      reads this
    {
      RowOk(l, mem) && BinsOk(l, mem, smallmap, treemap, z)
    }

    /** The leftmost child of a node, or null. */
    function LeftmostChild(t: nat): nat
      reads this`mem
    {
      if Get(mem, Child(t, 0)) != 0 then Get(mem, Child(t, 0)) else Get(mem, Child(t, 1))
    }

    /**
     * Descends bin idx by the bits of nb. Ends at a chunk of exactly nb bytes, or names the least subtree
     * that may hold something better than the node found on the way.
     */
    method Descend(nb: nat, idx: nat, root: nat) returns (v: nat, rsize: nat, t: nat, ghost vs: nat, ghost q: Pos)
      requires Searchable() && MIN_LARGE <= nb < ARENA && idx == TreeIndex(nb) && root == Get(mem, Root(idx))
      requires root != 0
      ensures PickOk(z, nb, v, rsize, vs)
      ensures t != 0 ==> q in z.tree && t == Front(z, z.tree[q]) && Leftward(z, nb, vs, q)
      ensures t == 0 && v != 0 ==> Best(z, nb, vs)
      ensures t == 0 && v == 0 ==> forall s :: s in z.pos && s >= nb ==> z.pos[s].bin > idx
    {
      hide BinsOk, LayoutOk, TagsOk, NoAdjacentFree, Get, TreeShape, Descending, Leftward, Best, Front, RightOf,
        Aside, Down, ChunkSize, Undecided, Below, Beyond, TreeIndex, LeftShift, Width, Shl, ShiftOne, RootPre, SignBit,
        Pre;
      v, rsize, vs := 0, Sub(0, nb), 0;
      t := root;
      HasShape(l, mem, smallmap, treemap, z);
      SeeRoot(l, mem, smallmap, treemap, z, idx);
      q := RootPos(idx);
      RootOnPath(z, idx, nb);
      var sizebits := Shl(nb, LeftShift(idx));
      var rst := 0;
      ghost var r, qr := false, q;
      DescendStart(z, idx, nb, q, qr);
      while true
        invariant PickOk(z, nb, v, rsize, vs) && (vs != 0 ==> z.pos[vs].bin == idx) && rsize != 0
        invariant OnPath(z, idx, nb, q) && t == Front(z, z.tree[q]) && sizebits == Undecided(idx, nb, q.depth)
        invariant Descending(z, idx, nb, vs, q, r, qr)
        invariant if r then qr in z.tree && rst == Front(z, z.tree[qr]) && rst != 0 else rst == 0
        decreases Width(idx) - q.depth
      {
        See(l, mem, smallmap, treemap, z, q);
        RemainderTest(z, nb, v, rsize, vs, z.tree[q]);
        var trem := Sub(ChunkSize(Get(mem, Head(t))), nb);
        if trem < rsize {
          DescendBetter(z, idx, nb, vs, z.tree[q], q, r, qr);
          v, vs := t, z.tree[q];
          rsize := trem;
          if rsize == 0 {
            ExactLeftward(z, nb, q);
            break;
          }
        }
        PathStep(z, idx, nb, q, sizebits);
        UndecidedStep(idx, nb, q.depth);
        var rt := Get(mem, Child(t, 1));
        var c := SignBit(sizebits);
        t := Get(mem, Child(t, c));
        ghost var r0, qr0 := r, qr;
        if rt != 0 && rt != t {
          rst := rt;
          r, qr := true, Down(q, 1);
        }
        DescendStep(z, idx, nb, vs, q, r0, qr0, c, r, qr);
        if t == 0 {
          t := rst;
          if r { RightFits(z, idx, nb, vs, qr); } else { BinExhausted(z, idx, nb, vs, qr); }
          q := qr;
          break;
        }
        q := Down(q, c);
        sizebits := ShiftOne(sizebits);
      }
    }

    /** Follows the leftmost path from t and keeps the smallest fitting node met. */
    method LeastFrom(nb: nat, v0: nat, rsize0: nat, t0: nat, ghost vs0: nat, ghost q0: Pos)
      returns (v: nat, rsize: nat, ghost vs: nat)
      requires Searchable() && 0 < nb < ARENA && PickOk(z, nb, v0, rsize0, vs0)
      requires if t0 != 0 then q0 in z.tree && t0 == Front(z, z.tree[q0]) && Leftward(z, nb, vs0, q0)
        else Best(z, nb, vs0)
      ensures PickOk(z, nb, v, rsize, vs) && Best(z, nb, vs)
    {
      hide BinsOk, LayoutOk, TagsOk, NoAdjacentFree, Get, TreeShape, Leftward, Best, Front, Down, ChunkSize;
      v, rsize, vs := v0, rsize0, vs0;
      var t := t0;
      ghost var q := q0;
      HasShape(l, mem, smallmap, treemap, z);
      while t != 0
        invariant PickOk(z, nb, v, rsize, vs)
        invariant if t != 0 then q in z.tree && t == Front(z, z.tree[q]) && Leftward(z, nb, vs, q) else Best(z, nb, vs)
        decreases t != 0, Width(q.bin) - q.depth
      {
        See(l, mem, smallmap, treemap, z, q);
        RemainderTest(z, nb, v, rsize, vs, z.tree[q]);
        var trem := Sub(ChunkSize(Get(mem, Head(t))), nb);
        if trem < rsize {
          LeftBetter(z, nb, vs, z.tree[q], q);
          rsize := trem;
          v, vs := t, z.tree[q];
        }
        ghost var q' := if Down(q, 0) in z.tree then Down(q, 0) else Down(q, 1);
        LeftStep(z, nb, vs, q, q');
        t := LeftmostChild(t);
        DownDeeper(q);
        q := q';
      }
    }

    /** The root of the next bin that is not empty, where no fit is left in this one. */
    method NextBin(nb: nat, idx: nat) returns (t: nat, ghost q: Pos)
      requires Searchable() && MIN_LARGE <= nb < ARENA && idx == TreeIndex(nb)
      requires forall s :: s in z.pos && s >= nb ==> z.pos[s].bin > idx
      ensures t != 0 ==> q in z.tree && t == Front(z, z.tree[q]) && Leftward(z, nb, 0, q)
      ensures t == 0 ==> Best(z, nb, 0)
    {
      hide BinsOk, LayoutOk, TagsOk, NoAdjacentFree, Get, TreeShape, Leftward, Best, Front, LeastBit, Marked,
        LeftBits, And;
      HasShape(l, mem, smallmap, treemap, z);
      t, q := 0, RootPos(0);
      var leftbits := And(LeftBits(Idx2Bit(idx)), treemap);
      NextMarked(treemap, idx);
      RootsMarked(l, mem, smallmap, treemap, z);
      if leftbits != 0 {
        var i := Bit2Idx(LeastBit(leftbits));
        NextBinFits(z, idx, nb, i);
        SeeRoot(l, mem, smallmap, treemap, z, i);
        t := Get(mem, Root(i));
        q := RootPos(i);
      } else {
        NoNextBin(z, idx, nb);
      }
    }

    /** Finds a binned chunk of minimal size among those that hold nb bytes. */
    method FindLarge(nb: nat) returns (v: nat, rsize: nat)
      requires Searchable() && MIN_LARGE <= nb < ARENA
      ensures BestFit(l, z, nb, v)
      ensures v == 0 ==> rsize == WORD - nb
      ensures v != 0 ==> v in l.chunks && l.chunks[v].size == nb + rsize
    {
      hide BinsOk, LayoutOk, TagsOk, NoAdjacentFree, Get, TreeShape, Leftward, Best, Front, BestFit, LeastBit, Marked,
        LeftBits, And;
      HasShape(l, mem, smallmap, treemap, z);
      v, rsize := 0, Sub(0, nb);
      ghost var vs, q := 0, RootPos(0);
      var idx := TreeIndex(nb);
      var t := Get(mem, Root(idx));
      if t != 0 {
        v, rsize, t, vs, q := Descend(nb, idx, t);
      } else {
        SeeRoot(l, mem, smallmap, treemap, z, idx);
        EmptyBin(z, idx, nb);
      }
      if t == 0 && v == 0 {
        t, q := NextBin(nb, idx);
      }
      v, rsize, vs := LeastFrom(nb, v, rsize, t, vs, q);
      BestIsBestFit(l, mem, smallmap, treemap, z, nb, v, rsize, vs);
    }

    // ----- taking a chunk

    method SetInuseAndPinuse(p: nat, s: nat, ghost m0: Memory, ghost w: map<Cell, nat>)
      returns (ghost w': map<Cell, nat>)
      requires LayoutOk(l) && Live(l, Head(p)) && Live(l, Head(p + s)) && Writes(l, m0, mem, w) && Head(p + s) !in w
      requires s > 0
      modifies this`mem
      ensures w' == w[Head(p) := Tag(s, true, true)][Head(p + s) := WithPinuse(Get(m0, Head(p + s)))]
      ensures Writes(l, m0, mem, w')
    {
      hide LayoutOk, Live, UserSame, Get;
      w' := Put(Head(p), Tag(s, true, true), m0, w);
      w' := Put(Head(p + s), WithPinuse(Get(mem, Head(p + s))), m0, w');
    }

    /** Marks a whole free chunk as used. */
    method Occupy(p: nat, s: nat)
      requires Searchable() && FreeAt(l, p) && l.chunks[p].size == s && p !in z.binned
      modifies this`mem, this`l
      ensures p < p + s && l == One(old(l), p, p + s, true) && Searchable() && UserSame(old(l), old(mem), mem)
    {
      hide BinsOk, LayoutOk, TagsOk, NoAdjacentFree, UserSame, Get, Live, Writes, Pinuse, WithPinuse, One, Stretch,
        KeepsFree, KeepsUsed, Binnable, Blocks;
      ReadChunk(l, mem, p);
      FreePinuse(l, mem, p);
      InsideOne(l, p);
      UsedLive(l, p, p + s);
      AfterOccupy(l, p, p, s, Binnable(l, p) - {p});
      ghost var l1, m1 := l, mem;
      l := One(l, p, p + s, true);
      WritesNone(l, mem);
      ghost var w := SetInuseAndPinuse(p, s, m1, map[]);
      assert w == UsedWords(m1, p, p + s);
      UsedRow(l1, p, p + s, m1, mem);
      EditBins(l1, l, {p}, m1, mem, w, smallmap, treemap, z);
    }

    /** Cuts nb used bytes from the front of a free chunk; the rest stays a free chunk. */
    method Carve(p: nat, nb: nat, rsize: nat)
      requires Searchable() && FreeAt(l, p) && l.chunks[p].size == nb + rsize && p !in z.binned
      requires nb % 16 == 0 && MIN_CHUNK <= nb && MIN_CHUNK <= rsize
      modifies this`mem, this`l
      ensures l == Two(old(l), p, p + nb, p + nb + rsize, true, false) && Searchable()
      ensures UserSame(old(l), old(mem), mem)
    {
      hide BinsOk, LayoutOk, TagsOk, NoAdjacentFree, UserSame, Get, Live, Writes, Pinuse, WithPinuse, Two, KeepsFree,
        KeepsUsed, Binnable, Blocks, Victims;
      ghost var hi := p + nb + rsize;
      ReadChunk(l, mem, p);
      ReadNext(l, mem, p);
      FreePinuse(l, mem, p);
      InsideOne(l, p);
      Aligned(p, nb);
      UsedBehind(l, p);
      SplitLive(l, p, p + nb, hi, false);
      AfterCarve(l, p, nb, p, nb + rsize, Binnable(l, p) - {p});
      ghost var l1, m1 := l, mem;
      l := Two(l, p, p + nb, hi, true, false);
      WritesNone(l, mem);
      ghost var w := Put(Head(p), Tag(nb, true, true), m1, map[]);
      w := SetSizeAndPinuseOfFreeChunk(p + nb, rsize, m1, w);
      assert w == SplitWords(m1, p, p + nb, hi, false);
      SplitRow(l1, p, p + nb, hi, false, m1, mem, w);
      EditBins(l1, l, {p}, m1, mem, w, smallmap, treemap, z);
    }

    /** Makes p the designated victim and puts the old, small one into its bin. */
    method ReplaceDv(p: nat, s: nat)
      requires Searchable() && IsSmall(dvsize) && (dvsize == 0 <==> dv == 0)
      requires dv != 0 ==> FreeAt(l, dv) && l.chunks[dv].size == dvsize && dv !in z.binned
      modifies this`mem, this`smallmap, this`z, this`dv, this`dvsize
      ensures Searchable() && UserSame(l, old(mem), mem) && dv == p && dvsize == s
      ensures z.binned == if old(dv) == 0 then old(z.binned) else old(z.binned) + {old(dv)}
    {
      hide BinsOk, LayoutOk, TagsOk, NoAdjacentFree, UserSame, TagsSame, IsSmall;
      ghost var m0 := mem;
      UserStays(l, mem);
      var dvs := dvsize;
      if dvs != 0 {
        ReadChunk(l, mem, dv);
        ChunkPositive(l, dv);
        SmallKey(l, mem, smallmap, treemap, z, dvs);
        InsertSmallChunk(dv, dvs);
        RowKept(l, m0, mem);
      }
      dvsize := s;
      dv := p;
    }

    // ----- allocating

    /** The state an allocation method leaves: a new block at the chunk in front of r. */
    twostate predicate Served(r: nat, nb: nat)
      reads this
    {
      && r >= 16 && Ready() && Allocated(old(l), l, r - 16, nb) && UserSame(old(l), old(mem), mem)
    }

    /** Uses a chunk of small bin i, which holds chunks of exactly nb bytes. */
    method FromSmallBin(i: nat, nb: nat) returns (r: nat)
      requires Ready() && i < NBINS && Marked(smallmap, i) && nb == 8 * i
      modifies this`mem, this`smallmap, this`l, this`z
      ensures Served(r, nb) && Policy(old(l), dv, nb, true, r - 16) && !NoFit(old(l), nb)
    {
      hide BinsOk, LayoutOk, TagsOk, NoAdjacentFree, UserSame, TagsSame, Get, Live, Marked, Header, Policy, Binnable,
        Blocks, KeepsFree, KeepsUsed, BinnedAtLeast;
      ghost var l0, m0 := l, mem;
      var b := Header(i);
      var p := Get(mem, Fd(b));
      UnlinkFirstSmallChunk(b, p, i);
      RowKept(l, m0, mem);
      BinnableFree(l, dv, p);
      AfterOccupy(l, p, dv, dvsize, z.binned);
      ExactLeast(l, dv, nb);
      BinnedPolicy(l, dv, dvsize, nb, true, p);
      ghost var m1 := mem;
      Occupy(p, 8 * i);
      UserTwice(l0, m0, m1, mem);
      r := p + 16;
    }

    /** The state once p, a free chunk of s bytes other than the victim, has left the bins. */
    ghost predicate Unbinned(p: nat, s: nat)
      reads this
    {
      && Searchable() && Placed() && DvOk(l, dv, dvsize)
      && FreeAt(l, p) && l.chunks[p].size == s && p != dv && z.binned == Binnable(l, dv) - {p}
    }

    /** Uses p whole, or splits it and keeps the remainder as designated victim. */
    method SplitToDv(p: nat, nb: nat, rsize: nat)
      requires Unbinned(p, nb + rsize) && nb % 16 == 0 && MIN_CHUNK <= nb && dvsize < nb <= MIN_LARGE
      modifies this`mem, this`smallmap, this`l, this`z, this`dv, this`dvsize
      ensures Served(p + 16, nb) && l.end == old(l).end
    {
      hide BinsOk, LayoutOk, TagsOk, NoAdjacentFree, UserSame, TagsSame, Get, Live, Binnable, Blocks, KeepsFree,
        KeepsUsed, One, Two;
      ghost var l0, m0 := l, mem;
      NotBinnable(l, dv, dv);
      ReadChunk(l, mem, p);
      if rsize < MIN_CHUNK {
        AfterOccupy(l, p, dv, dvsize, z.binned);
        Occupy(p, rsize + nb);
      } else {
        AfterCarve(l, p, nb, dv, dvsize, z.binned);
        Carve(p, nb, rsize);
        ghost var m1 := mem;
        ReplaceDv(p + nb, rsize);
        UserNarrow(l0, l, m1, mem);
        UserTwice(l0, m0, m1, mem);
      }
    }

    /** Uses p whole, or splits it and bins the remainder. */
    method SplitToBin(p: nat, nb: nat, rsize: nat)
      requires Unbinned(p, nb + rsize) && nb % 16 == 0 && MIN_CHUNK <= nb
      modifies this`mem, this`smallmap, this`treemap, this`l, this`z
      ensures Served(p + 16, nb) && l.end == old(l).end
    {
      hide BinsOk, LayoutOk, TagsOk, NoAdjacentFree, UserSame, TagsSame, Get, Live, Binnable, Blocks, KeepsFree,
        KeepsUsed, One, Two;
      ghost var l0, m0 := l, mem;
      NotBinnable(l, dv, dv);
      if rsize < MIN_CHUNK {
        AfterOccupy(l, p, dv, dvsize, z.binned);
        Occupy(p, rsize + nb);
      } else {
        AfterCarve(l, p, nb, dv, dvsize, z.binned);
        Carve(p, nb, rsize);
        ghost var m1 := mem;
        InsertChunk(p + nb, rsize);
        UserNarrow(l0, l, m1, mem);
        UserTwice(l0, m0, m1, mem);
      }
    }

    /** Uses a chunk of the next non-empty small bin. */
    method FromNextSmallBin(nb: nat, idx: nat, smallbits: bv32) returns (r: nat)
      requires Ready() && nb == 8 * idx && nb % 16 == 0 && MIN_CHUNK <= nb && idx + 1 < NBINS && dvsize < nb
      requires smallbits == ShiftRight(smallmap, idx) && smallbits != 0 && !LowTwo(smallbits)
      modifies this`mem, this`smallmap, this`l, this`z, this`dv, this`dvsize
      ensures Served(r, nb) && Policy(old(l), old(dv), nb, true, r - 16) && !NoFit(old(l), nb)
    {
      hide BinsOk, LayoutOk, TagsOk, NoAdjacentFree, UserSame, TagsSame, Get, Live, Marked, Header, Policy, Binnable,
        Blocks, KeepsFree, KeepsUsed, BinnedAtLeast, LeastBit, LeftBits, ShiftLeft, ShiftRight, And, LowTwo, Allocated;
      ghost var l0, m0 := l, mem;
      NextSmallMarked(smallmap, idx);
      RemainderlessFit(smallmap, idx);
      var leftbits := And(ShiftLeft(smallbits, idx), LeftBits(Idx2Bit(idx)));
      var i := Bit2Idx(LeastBit(leftbits));
      NextBinLeast(l, mem, smallmap, treemap, z, nb, idx, i);
      var b := Header(i);
      var p := Get(mem, Fd(b));
      UnlinkFirstSmallChunk(b, p, i);
      RowKept(l, m0, mem);
      BinnableFree(l, dv, p);
      BinnedPolicy(l, dv, dvsize, nb, true, p);
      var rsize := 8 * i - nb;
      ghost var m1 := mem;
      SplitToDv(p, nb, rsize);
      UserTwice(l0, m0, m1, mem);
      r := p + 16;
    }

    /** Uses the smallest chunk of the tree bins for a small request. */
    method TMallocSmall(nb: nat) returns (r: nat)
      requires Ready() && treemap != 0 && nb % 16 == 0 && MIN_CHUNK <= nb && dvsize < nb < MIN_LARGE
      requires forall x :: x in z.binned && x in l.chunks && nb <= l.chunks[x].size ==> MIN_LARGE <= l.chunks[x].size
      modifies this`mem, this`smallmap, this`treemap, this`l, this`z, this`dv, this`dvsize
      ensures Served(r, nb) && Policy(old(l), old(dv), nb, true, r - 16) && !NoFit(old(l), nb)
    {
      hide BinsOk, LayoutOk, TagsOk, NoAdjacentFree, UserSame, TagsSame, Get, Live, Marked, Policy, Binnable, Blocks,
        KeepsFree, KeepsUsed, BinnedAtLeast, LeastBit, Allocated, BestFit, IsSmall;
      ghost var l0, m0 := l, mem;
      var v, rsize := FindSmallest(nb);
      SmallestPolicy(l, dv, z, nb, v);
      BinnableFree(l, dv, v);
      BinnedPolicy(l, dv, dvsize, nb, true, v);
      UnlinkLargeChunk(v);
      RowKept(l, m0, mem);
      ghost var m1 := mem;
      SplitToDv(v, nb, rsize);
      UserTwice(l0, m0, m1, mem);
      r := v + 16;
    }

    /** The smallest chunk of the first tree bin. */
    method FindSmallest(nb: nat) returns (v: nat, rsize: nat)
      requires Searchable() && treemap != 0 && MIN_CHUNK <= nb < MIN_LARGE
      ensures BestFit(l, z, MIN_LARGE, v) && v != 0
      ensures v in l.chunks && l.chunks[v].size == nb + rsize && MIN_LARGE <= nb + rsize
    {
      hide BinsOk, LayoutOk, TagsOk, NoAdjacentFree, Get, TreeShape, Leftward, Best, Front, BestFit, LeastBit, Marked,
        Down, ChunkSize, PickOk;
      FirstMarked(treemap);
      HasShape(l, mem, smallmap, treemap, z);
      RootsMarked(l, mem, smallmap, treemap, z);
      var i := Bit2Idx(LeastBit(treemap));
      SeeRoot(l, mem, smallmap, treemap, z, i);
      var t := Get(mem, Root(i));
      ghost var q := RootPos(i);
      See(l, mem, smallmap, treemap, z, q);
      FirstBinFits(z, nb, i);
      ghost var vs := z.tree[q];
      v := t;
      FirstPick(z, nb, q);
      rsize := ChunkSize(Get(mem, Head(t))) - nb;
      ghost var q' := if Down(q, 0) in z.tree then Down(q, 0) else Down(q, 1);
      LeftStep(z, nb, vs, q, q');
      v, rsize, vs := LeastFrom(nb, v, rsize, LeftmostChild(t), vs, q');
      BestSmall(l, mem, smallmap, treemap, z, nb, v, rsize, vs);
    }

    /**
     * Uses a best fit of the tree bins, if it fits better than the designated victim. If it declines,
     * either nothing fits or the victim is at least as good.
     */
    method TMallocLarge(nb: nat) returns (r: nat)
      requires Ready() && nb % 16 == 0 && MIN_LARGE <= nb < ARENA
      modifies this`mem, this`smallmap, this`treemap, this`l, this`z
      ensures r != 0 ==> Served(r, nb) && Policy(old(l), dv, nb, false, r - 16) && !NoFit(old(l), nb)
      ensures r == 0 ==> unchanged(this)
      ensures r == 0 ==> if nb <= dvsize then BinnedAtLeast(l, z.binned, nb, dvsize) else NoBinned(l, z.binned, nb)
    {
      hide BinsOk, LayoutOk, TagsOk, NoAdjacentFree, UserSame, TagsSame, Get, Live, Policy, Binnable, Blocks,
        KeepsFree, KeepsUsed, BinnedAtLeast, NoBinned, Allocated, BestFit, IsSmall;
      ghost var l0, m0 := l, mem;
      var v, rsize := FindLarge(nb);
      DvBelowArena(l, dv, dvsize);
      if v != 0 { ReadChunk(l, mem, v); }
      LargePolicy(l, z, nb, dvsize, v, rsize);
      if v != 0 && rsize < Sub(dvsize, nb) {
        BinnableFree(l, dv, v);
        BinnedPolicy(l, dv, dvsize, nb, false, v);
        UnlinkLargeChunk(v);
        RowKept(l, m0, mem);
        ghost var m1 := mem;
        SplitToBin(v, nb, rsize);
        UserTwice(l0, m0, m1, mem);
        return v + 16;
      }
      return 0;
    }

    /** Uses the designated victim, whole or its front part. */
    method FromDv(nb: nat) returns (r: nat)
      requires Ready() && nb % 16 == 0 && MIN_CHUNK <= nb <= dvsize
      modifies this`mem, this`l, this`dv, this`dvsize
      ensures r == old(dv) + 16 && Served(r, nb) && l.end == old(l).end
    {
      hide BinsOk, LayoutOk, TagsOk, NoAdjacentFree, UserSame, TagsSame, Get, Live, Binnable, Blocks, KeepsFree,
        KeepsUsed, One, Two;
      var rsize := dvsize - nb;
      var p := dv;
      NotBinnable(l, dv, p);
      assert z.binned == Binnable(l, dv) - {p};
      ReadChunk(l, mem, p);
      if rsize >= MIN_CHUNK {
        AfterCarve(l, p, nb, dv, dvsize, z.binned);
        dv := p + nb;
        dvsize := rsize;
        Carve(p, nb, rsize);
      } else {
        AfterOccupy(l, p, dv, dvsize, z.binned);
        var dvs := dvsize;
        dvsize := 0;
        dv := 0;
        Occupy(p, dvs);
      }
      r := p + 16;
    }

    /** Cuts a block from the front of top. */
    method SplitTop(nb: nat) returns (r: nat)
      requires Ready() && nb % 16 == 0 && MIN_CHUNK <= nb < topsize
      modifies this`mem, this`l, this`top, this`topsize
      ensures r == old(top) + 16 && Served(r, nb) && l.end == old(l).end
    {
      hide BinsOk, LayoutOk, TagsOk, NoAdjacentFree, UserSame, TagsSame, Get, Live, Binnable, Blocks, KeepsFree,
        KeepsUsed, TopTake, Writes;
      AfterTopTake(l, nb, dv, dvsize);
      TopTakeLive(l, nb);
      ghost var l1, m1 := l, mem;
      topsize := topsize - nb;
      var p := top;
      top := p + nb;
      l := TopTake(l, nb);
      WritesNone(l, mem);
      ghost var w := Put(Head(top), Tag(topsize, false, true), m1, map[]);
      w := Put(Head(p), Tag(nb, true, true), m1, w);
      assert w == TopWords(l1, nb);
      TopTakeRow(l1, nb, m1, mem);
      BinnedNone(z.binned);
      EditBins(l1, l, {}, m1, mem, w, smallmap, treemap, z);
      r := p + 16;
    }

    // ----- the segment

    /** Nothing has been allocated yet; the state record is zero. */
    ghost predicate Fresh()
      reads this
    {
      && smallmap == 0 && treemap == 0 && dv == 0 && dvsize == 0 && top == 0 && topsize == 0 && footprint == 0
      && maxFootprint == 0
      && l == FreshLayout(heapStart) && forall b :: 0 <= b < NTREEBINS ==> Get(mem, Root(b)) == 0
    }

    ghost predicate Valid()
      reads this
    {
      && heapStart % 4096 == 0 && STATIC_END <= heapStart && heapStart + ARENA < WORD
      && (if top == 0 then Fresh() else Ready())
    }

    constructor (start: nat, memory: Memory)
      requires start % 4096 == 0 && STATIC_END <= start && start + ARENA < WORD
      requires forall b :: 0 <= b < NTREEBINS ==> Get(memory, Root(b)) == 0
      ensures Valid() && Blocks(l) == map[] && heapStart == start && mem == memory && footprint == 0
    {
      heapStart := start;
      mem := memory;
      smallmap, treemap := 0, 0;
      dv, dvsize, top, topsize := 0, 0, 0, 0;
      segBase, segSize, footprint, maxFootprint := 0, 0, 0, 0;
      l := FreshLayout(start);
      z := EmptyBins();
    }

    /** Establishes circular links for the small bins. */
    method InitBins(ghost m0: Memory) returns (ghost w: map<Cell, nat>)
      requires LayoutOk(l) && mem == m0
      requires forall i :: 0 <= i < NBINS ==> Live(l, Fd(Header(i))) && Live(l, Bk(Header(i)))
      modifies this`mem
      ensures Writes(l, m0, mem, w)
      ensures forall c :: c in w ==> IsRingCell(c)
      ensures forall i :: 0 <= i < NBINS ==> Fd(Header(i)) in w && w[Fd(Header(i))] == Header(i)
      ensures forall i :: 0 <= i < NBINS ==> Bk(Header(i)) in w && w[Bk(Header(i))] == Header(i)
    {
      hide LayoutOk, Live, Writes;
      w := map[];
      WritesNone(l, mem);
      for i := 0 to NBINS
        invariant Writes(l, m0, mem, w)
        invariant forall c :: c in w ==> IsRingCell(c)
        invariant forall j :: 0 <= j < i ==> Fd(Header(j)) in w && w[Fd(Header(j))] == Header(j)
        invariant forall j :: 0 <= j < i ==> Bk(Header(j)) in w && w[Bk(Header(j))] == Header(j)
      {
        var bin := Header(i);
        w := Put(Bk(bin), bin, m0, w);
        w := Put(Fd(bin), bin, m0, w);
      }
    }

    /** Makes p, of psize bytes, the top chunk and marks the trailing foot. */
    method InitTop(p: nat, psize: nat, ghost m0: Memory, ghost w: map<Cell, nat>) returns (ghost w': map<Cell, nat>)
      requires LayoutOk(l) && Live(l, Head(p)) && Live(l, Head(p + psize)) && Writes(l, m0, mem, w)
      modifies this`mem, this`top, this`topsize
      ensures top == p && topsize == psize
      ensures w' == w[Head(p) := Tag(psize, false, true)][Head(p + psize) := TOP_FOOT] && Writes(l, m0, mem, w')
    {
      hide LayoutOk, Live, Writes;
      top := p;
      topsize := psize;
      w' := Put(Head(p), Tag(psize, false, true), m0, w);
      w' := Put(Head(p + psize), TOP_FOOT, m0, w');
    }

    /** Counts memory obtained from the system, and its greatest amount so far. */
    method Account(tsize: nat)
      modifies this`footprint, this`maxFootprint
      ensures footprint == old(footprint) + tsize && maxFootprint == Max(old(maxFootprint), footprint)
    {
      footprint := footprint + tsize;
      if footprint > maxFootprint {
        maxFootprint := footprint;
      }
    }

    /** Takes the first segment into use. */
    method FirstSegment(tbase: nat, tsize: nat)
      requires Valid() && top == 0 && tbase == heapStart && tsize % 16 == 0 && TOP_FOOT < tsize <= ARENA
      modifies this
      ensures Ready() && l == FirstLayout(heapStart, tsize - TOP_FOOT) && footprint == tsize
    {
      hide LayoutOk, Writes, NoAdjacentFree, TagsOk, BinsOk, Get, Live, UserSame, Blocks, EmptyBins;
      Account(tsize);
      segBase := tbase;
      segSize := tsize;
      ghost var m0 := mem;
      Aligned(tsize, TOP_FOOT);
      FirstAlign(tbase);
      FirstLayoutOk(tbase, tsize - TOP_FOOT);
      l := FirstLayout(tbase, tsize - TOP_FOOT);
      ghost var w := InitBins(m0);
      w := InitTop(tbase, tsize - TOP_FOOT, m0, w);
      FirstWords(l, m0, mem, w);
      FirstRow(tbase, tsize - TOP_FOOT, mem);
      EmptyBinsOk(l, mem);
      NoBlocks(l);
      z := EmptyBins();
    }

    /** Appends tsize bytes to the segment; top grows. */
    method AppendSegment(tsize: nat)
      requires Ready() && tsize % 16 == 0 && tsize > 0 && footprint + tsize <= ARENA
      modifies this`mem, this`l, this`top, this`topsize, this`segSize, this`footprint,
        this`maxFootprint
      ensures Ready() && l == Grow(old(l), tsize) && footprint == old(footprint) + tsize
      ensures UserSame(old(l), old(mem), mem)
      ensures topsize == old(topsize) + tsize && top == old(top)
    {
      hide LayoutOk, Writes, NoAdjacentFree, TagsOk, BinsOk, Live, Get, UserSame, Blocks, Binnable, KeepsFree,
        KeepsUsed;
      Account(tsize);
      segSize := segSize + tsize;
      ghost var l1, m1 := l, mem;
      GrowLive(l, tsize);
      GrowSets(l, tsize);
      l := Grow(l, tsize);
      WritesNone(l, mem);
      ghost var w := InitTop(top, topsize + tsize, m1, map[]);
      assert w == GrowWords(l1, tsize);
      GrowRow(l1, tsize, m1, mem);
      BinnedNone(z.binned);
      EditBins(l1, l, {}, m1, mem, w, smallmap, treemap, z);
    }

    /** Gets memory from the system, always right behind the segment, and cuts the block from top. */
    method SysAlloc(nb: nat) returns (r: nat)
      requires Valid() && topsize <= nb
      requires nb == WORD - 1
        || (nb % 16 == 0 && MIN_CHUNK <= nb && footprint + GranularityAlign(nb - topsize + 96) <= ARENA)
      modifies this
      ensures Valid() && (r == 0 <==> nb == WORD - 1)
      ensures r == 0 ==> unchanged(this)
      ensures r != 0 ==> Served(r, nb) && r - 16 == old(l).top
      ensures r != 0 ==> footprint == old(footprint) + GranularityAlign(nb - old(topsize) + 96)
    {
      hide LayoutOk, NoAdjacentFree, TagsOk, BinsOk, Live, Get, UserSame, Blocks, Binnable, KeepsFree, KeepsUsed,
        GranularityAlign;
      ghost var l0, m0 := l, mem;
      if nb != WORD - 1 { PageSize(nb - topsize + 96); if top != 0 { ArenaSizes(l, dv, dvsize); } }
      RequestPages(nb);
      var asize := GranularityAlign((nb + 96) % WORD) % WORD;
      if asize <= nb {
        return 0;
      }
      if top == 0 {
        NoBlocks(l);
        NoUsers(l, FirstLayout(heapStart, asize - TOP_FOOT));
        FirstSegment(heapStart, asize);
        NoBlocks(l);
      } else {
        GrowSets(l, GranularityAlign(nb - topsize + 96));
        AppendSegment(GranularityAlign(nb - topsize + 96));
      }
      ghost var l1, m1 := l, mem;
      r := SplitTop(nb);
      UserNarrow(l0, l1, m1, mem);
      UserTwice(l0, m0, m1, mem);
      TopEnd(l);
    }

    /** The bins hold nothing to prefer over the victim or, if the victim is too small, over top. */
    ghost predicate Missed(nb: nat, small: bool)
      reads this
    {
      if nb <= dvsize then if small then NoneExact(l, dv, nb) else BinnedAtLeast(l, z.binned, nb, dvsize)
      else NoBinned(l, z.binned, nb)
    }

    /** Serves a request from the victim, from top, or from new memory. */
    method FromRest(nb: nat, ghost small: bool) returns (r: nat)
      requires Valid() && (top == 0 || Missed(nb, small))
      requires nb == WORD - 1 || (nb % 16 == 0 && MIN_CHUNK <= nb && footprint + Growth(l, topsize, nb) <= ARENA)
      modifies this
      ensures Valid() && (r == 0 <==> nb == WORD - 1)
      ensures r == 0 ==> unchanged(this)
      ensures r != 0 ==> Served(r, nb) && Policy(old(l), old(dv), nb, small, r - 16)
      ensures r != 0 ==> footprint == old(footprint) + Growth(old(l), old(topsize), nb)
    {
      hide LayoutOk, NoAdjacentFree, TagsOk, BinsOk, Live, Get, UserSame, Blocks, Binnable, KeepsFree, KeepsUsed,
        GranularityAlign, Policy, NoFit, BinnedAtLeast, NoBinned, NoneExact, Allocated;
      if top != 0 { ArenaSizes(l, dv, dvsize); }
      if nb <= dvsize {
        DvPolicy(l, dv, dvsize, nb, small);
        r := FromDv(nb);
        TopEnd(l);
        return;
      }
      if top == 0 { FreshPolicy(l, dv, nb, small); } else { TopPolicy(l, dv, dvsize, nb, small); }
      if nb < topsize {
        r := SplitTop(nb);
        TopEnd(l);
        return;
      }
      r := SysAlloc(nb);
    }

    /** Serves a small request from the bins, unless the victim or what is left is to serve it. */
    method SmallRequest(bytes: nat) returns (nb: nat, r: nat)
      requires Valid() && bytes <= MAX_SMALL_REQUEST
      modifies this`mem, this`smallmap, this`treemap, this`l, this`z, this`dv, this`dvsize
      ensures nb == Request2Size(bytes)
      ensures r == 0 ==> unchanged(this) && (top == 0 || Missed(nb, true))
      ensures r != 0 ==> Ready() && Served(r, nb) && Policy(old(l), old(dv), nb, true, r - 16) && !NoFit(old(l), nb)
    {
      hide LayoutOk, NoAdjacentFree, TagsOk, BinsOk, Live, Get, UserSame, Blocks, Binnable, KeepsFree, KeepsUsed,
        GranularityAlign, Policy, LowTwo, ShiftRight, LowBitClear, Marked, NoFit, BinnedAtLeast, NoBinned, NoneExact,
        PadRequest, Allocated;
      RequestSizes(bytes);
      nb := if bytes < MIN_REQUEST then MIN_CHUNK else PadRequest(bytes);
      var idx := SmallIndex(nb);
      var smallbits := ShiftRight(smallmap, idx);
      r := 0;
      if top == 0 { FreshMiss(idx); }
      if LowTwo(smallbits) {
        ExactBin(l, mem, smallmap, treemap, z, nb, idx);
        idx := idx + LowBitClear(smallbits);
        r := FromSmallBin(idx, nb);
        return;
      }
      if top != 0 { SmallMiss(l, mem, smallmap, treemap, z, dv, nb, idx); }
      if nb > dvsize {
        if smallbits != 0 {
          r := FromNextSmallBin(nb, idx, smallbits);
        } else if treemap != 0 {
          r := TMallocSmall(nb);
        }
      }
    }

    lemma VictimOk()
      requires Valid()
      ensures DvOk(l, dv, dvsize) && 0 !in l.chunks
    {
      if top != 0 { ZeroNoChunk(l); }
    }

    /** Allocates at least bytes bytes; null only for requests at or above the largest one. */
    method Malloc(bytes: nat) returns (r: nat)
      requires Valid() && bytes < WORD
      requires bytes >= MAX_REQUEST || footprint + Growth(l, topsize, Request2Size(bytes)) <= ARENA
      modifies this
      ensures Valid() && (r == 0 <==> bytes >= 0xffff_ffff_ffff_ff80)
      ensures r == 0 ==> unchanged(this)
      ensures r != 0 ==> Served(r, Request2Size(bytes))
      ensures r != 0 ==> Policy(old(l), old(dv), Request2Size(bytes), bytes <= 232, r - 16)
      ensures r != 0 ==> var nb := Request2Size(bytes);
        (forall x :: FreeAt(old(l), x) ==> old(l).chunks[x].size < nb) ==> r - 16 == old(l).top
      ensures r != 0 && (bytes > 232 || old(dvsize) < Request2Size(bytes)) ==>
        forall y :: FreeAt(old(l), y) && Request2Size(bytes) <= old(l).chunks[y].size ==>
          && FreeAt(old(l), r - 16)
          && Request2Size(bytes) <= old(l).chunks[r - 16].size <= old(l).chunks[y].size
      ensures r != 0 && bytes <= 232 ==> var nb := Request2Size(bytes);
        (exists x :: FreeAt(old(l), x) && x != old(dv) && old(l).chunks[x].size == nb) ==>
          FreeAt(old(l), r - 16) && r - 16 != old(dv) && old(l).chunks[r - 16].size == nb
      ensures r != 0 && bytes <= 232 && Request2Size(bytes) <= old(dvsize) ==>
        var nb := Request2Size(bytes);
        (forall x :: FreeAt(old(l), x) && x != old(dv) ==> old(l).chunks[x].size != nb) ==> r == old(dv) + 16
      ensures r != 0 ==> footprint == old(footprint) + Growth(old(l), old(topsize), Request2Size(bytes))
      ensures old(footprint) <= footprint <= old(footprint) + Demand(bytes)
    {
      hide LayoutOk, NoAdjacentFree, TagsOk, BinsOk, Live, Get, UserSame, Blocks, Binnable, KeepsFree, KeepsUsed,
        GranularityAlign, Policy, NoFit, BinnedAtLeast, NoBinned, NoneExact, PadRequest, Allocated, Demand, DvOk,
        FreeAt;
      var nb;
      ghost var small, l0, dv0, dvs0 := bytes <= MAX_SMALL_REQUEST, l, dv, dvsize;
      RequestSizes(bytes);
      VictimOk();
      if bytes < MAX_REQUEST { GrowthBound(l, topsize, bytes); }
      if bytes <= MAX_SMALL_REQUEST {
        nb, r := SmallRequest(bytes);
      } else if bytes >= MAX_REQUEST {
        nb, r := WORD - 1, 0;
        if top != 0 { HugeMiss(l, z.binned, nb); ArenaSizes(l, dv, dvsize); }
      } else {
        nb, r := PadRequest(bytes), 0;
        if top != 0 { NeedBelowArena(l, topsize, footprint, nb); }
        if treemap != 0 {
          r := TMallocLarge(nb);
        } else if top != 0 {
          TreeMiss(l, mem, smallmap, z, nb, dvsize);
        }
      }
      if r != 0 {
        TopEnd(l);
      } else {
        r := FromRest(nb, small);
      }
      if r != 0 { PolicyTells(l0, dv0, dvs0, nb, small, r - 16); }
    }

    /** Frees a block; null is ignored. */
    method Free(r: nat)
      requires Valid() && (r == 0 || (r >= 16 && r - 16 in Blocks(l)))
      modifies this
      ensures Valid() && footprint == old(footprint)
      ensures r == 0 ==> unchanged(this)
      ensures r != 0 ==> Ready() && Blocks(l) == Blocks(old(l)) - {r - 16} && UserSame(l, old(mem), mem)
    {
      hide LayoutOk, NoAdjacentFree, TagsOk, BinsOk, UserSame, Binnable, Get;
      if r != 0 {
        var p := r - 16;
        ReadChunk(l, mem, p);
        Consolidate(p, ChunkSize(Get(mem, Head(p))));
        TopEnd(l);
      }
    }

    // ----- resizing

    method SetInuse(p: nat, s: nat, ghost m0: Memory, ghost w: map<Cell, nat>) returns (ghost w': map<Cell, nat>)
      requires LayoutOk(l) && Live(l, Head(p)) && Live(l, Head(p + s)) && Writes(l, m0, mem, w) && s > 0
      modifies this`mem
      ensures w' == w[Head(p) := Tag(s, true, Pinuse(Get(old(mem), Head(p))))][Head(p + s) :=
        WithPinuse(Get(old(mem), Head(p + s)))]
      ensures Writes(l, m0, mem, w')
    {
      hide LayoutOk, Live, UserSame, Get, Writes;
      WriteIs(l, m0, mem, w, Head(p + s));
      w' := Put(Head(p), Tag(s, true, Pinuse(Get(mem, Head(p)))), m0, w);
      WriteIs(l, m0, mem, w', Head(p + s));
      w' := Put(Head(p + s), WithPinuse(Get(mem, Head(p + s))), m0, w');
    }

    /** Turns the stretch [p, p + s) into one used chunk. */
    method Absorb(p: nat, s: nat)
      requires Searchable() && Spare(l, p, p + s) && l.chunks[p].used && z.binned !! Inside(l, p, p + s)
      requires KeepsFree(l, One(l, p, p + s, true), Inside(l, p, p + s))
      modifies this`mem, this`l
      ensures l == One(old(l), p, p + s, true) && Searchable() && UserSame(l, old(mem), mem)
    {
      hide BinsOk, LayoutOk, TagsOk, NoAdjacentFree, UserSame, Get, Live, Writes, Pinuse, WithPinuse, One, KeepsFree,
        KeepsUsed, Inside;
      UsedLive(l, p, p + s);
      ghost var l1, m1 := l, mem;
      l := One(l, p, p + s, true);
      WritesNone(l, mem);
      ghost var w := SetInuse(p, s, m1, map[]);
      assert w == UsedWords(m1, p, p + s);
      UsedRow(l1, p, p + s, m1, mem);
      EditBins(l1, l, Inside(l1, p, p + s), m1, mem, w, smallmap, treemap, z);
    }

    /** Turns the stretch at p into used chunks of nb and rsize bytes. */
    method Cut2(p: nat, nb: nat, rsize: nat)
      requires Searchable() && Spare(l, p, p + nb + rsize) && l.chunks[p].used
      requires z.binned !! Inside(l, p, p + nb + rsize)
      requires nb % 16 == 0 && MIN_CHUNK <= nb && MIN_CHUNK <= rsize
      requires KeepsFree(l, Two(l, p, p + nb, p + nb + rsize, true, true), Inside(l, p, p + nb + rsize))
      modifies this`mem, this`l
      ensures l == Two(old(l), p, p + nb, p + nb + rsize, true, true) && Searchable() && UserSame(l, old(mem), mem)
    {
      hide BinsOk, LayoutOk, TagsOk, NoAdjacentFree, UserSame, Get, Live, Writes, Pinuse, WithPinuse, Two, KeepsFree,
        KeepsUsed, Inside;
      var r := p + nb;
      ghost var hi := r + rsize;
      StretchEdges(l, p, hi);
      Aligned(p, nb);
      SplitLive(l, p, r, hi, true);
      ghost var l1, m1 := l, mem;
      l := Two(l, p, r, hi, true, true);
      WritesNone(l, mem);
      ghost var w := SetInuse(p, nb, m1, map[]);
      WriteIs(l, m1, mem, w, Head(r));
      WriteIs(l, m1, mem, w, Head(hi));
      PinuseSet(Get(m1, Head(r)));
      w := SetInuse(r, rsize, m1, w);
      assert w == SplitWords(m1, p, r, hi, true);
      SplitRow(l1, p, r, hi, true, m1, mem, w);
      EditBins(l1, l, Inside(l1, p, hi), m1, mem, w, smallmap, treemap, z);
    }

    /** Gives up the tail of the stretch at p: cuts it off as a used chunk and frees that. */
    method CutAndFree(p: nat, nb: nat, rsize: nat)
      requires Searchable() && Placed() && DvOk(l, dv, dvsize)
      requires Spare(l, p, p + nb + rsize) && l.chunks[p].used
      requires z.binned == Binnable(l, dv) - Inside(l, p, p + nb + rsize)
      requires nb % 16 == 0 && MIN_CHUNK <= nb && MIN_CHUNK <= rsize && dv !in Inside(l, p, p + nb + rsize)
      modifies this`mem, this`smallmap, this`treemap, this`dv, this`dvsize, this`top, this`topsize, this`l, this`z
      ensures Ready() && Blocks(l) == Blocks(old(l))[p := nb] && l.base == old(l).base && l.end == old(l).end
      ensures BothSame(old(l), l, old(mem), mem)
    {
      hide BinsOk, LayoutOk, TagsOk, NoAdjacentFree, UserSame, Get, Two, KeepsFree, KeepsUsed, Inside, Blocks,
        Binnable, Spare, BothSame;
      ghost var l0, m0 := l, mem;
      var r := p + nb;
      NoBlockInside(l, p, r, r + rsize);
      AfterCut(l, p, r, r + rsize, dv, dvsize, z.binned);
      Cut2(p, nb, rsize);
      ghost var l1, m1 := l, mem;
      UserStays(l0, m0);
      BothOf(l0, l1, m0, m0, m1);
      Consolidate(r, rsize);
      BothFreed(l0, l1, l, m0, m1, mem, r);
    }

    /** Grows the last chunk into top. */
    method GrowIntoTop(p: nat, nb: nat, oldsize: nat)
      requires Ready() && p in l.chunks && l.chunks[p] == Chunk(oldsize, true) && p + oldsize == top
      requires nb % 16 == 0 && MIN_CHUNK <= nb && oldsize < nb < oldsize + topsize
      modifies this`mem, this`l, this`top, this`topsize
      ensures Ready() && Blocks(l) == Blocks(old(l))[p := nb] && l.base == old(l).base && l.end == old(l).end
      ensures UserSame(l, old(mem), mem)
    {
      hide BinsOk, LayoutOk, TagsOk, NoAdjacentFree, UserSame, Get, Live, Writes, Pinuse, WithPinuse, Extend,
        KeepsFree, KeepsUsed, Binnable, Blocks;
      ExtendLive(l, p, nb);
      ExtendSets(l, p, nb);
      DvExtended(l, p, nb, dv, dvsize);
      ghost var l1, m1 := l, mem;
      var newsize := oldsize + topsize;
      var newtopsize := newsize - nb;
      var newtop := p + nb;
      l := Extend(l, p, nb);
      WritesNone(l, mem);
      ghost var w := SetInuse(p, nb, m1, map[]);
      w := Put(Head(newtop), Tag(newtopsize, false, true), m1, w);
      assert w == ExtendWords(l1, m1, p, nb);
      top := newtop;
      topsize := newtopsize;
      ExtendRow(l1, p, nb, m1, mem);
      BinnedNone(z.binned);
      EditBins(l1, l, {}, m1, mem, w, smallmap, treemap, z);
    }

    /** Grows a chunk into the designated victim behind it, whose rest stays the victim. */
    method GrowIntoDv(p: nat, nb: nat, dsize: nat)
      requires Ready() && p in l.chunks && l.chunks[p].used && dv != 0 && EndOf(l, p) == dv
      requires dv + dvsize == p + nb + dsize
      requires nb % 16 == 0 && MIN_CHUNK <= nb && MIN_CHUNK <= dsize
      modifies this`mem, this`l, this`dv, this`dvsize
      ensures Ready() && Blocks(l) == Blocks(old(l))[p := nb] && l.base == old(l).base && l.end == old(l).end
      ensures UserSame(l, old(mem), mem)
    {
      hide BinsOk, LayoutOk, TagsOk, NoAdjacentFree, UserSame, Get, Live, Writes, Pinuse, WithPinuse, WithoutPinuse,
        Two, KeepsFree, KeepsUsed, Inside, Binnable, Blocks, SplitWords, Tag, DvOk;
      VictimIs(l, dv, dvsize);
      var r := p + nb;
      var n := r + dsize;
      InsideTwo(l, p);
      StretchEdges(l, p, n);
      Aligned(p, nb);
      UsedBehind(l, dv);
      AfterCutDv(l, p, r, n, dv, dvsize, z.binned);
      SplitLive(l, p, r, n, false);
      ghost var l1, m1 := l, mem;
      l := Two(l, p, r, n, true, false);
      WritesNone(l, mem);
      ghost var w := SetInuse(p, nb, m1, map[]);
      w := SetSizeAndPinuseOfFreeChunk(r, dsize, m1, w);
      SplitComesAbout(m1, p, r, n, WithPinuse(Get(m1, Head(r))));
      SplitCells(m1, p, r, n, false, w);
      WriteIs(l, m1, mem, w, Head(n));
      w := Put(Head(n), WithoutPinuse(Get(mem, Head(n))), m1, w);
      dvsize := dsize;
      dv := r;
      SplitRow(l1, p, r, n, false, m1, mem, w);
      EditBins(l1, l, Inside(l1, p, n), m1, mem, w, smallmap, treemap, z);
    }

    /** Grows a chunk by the whole designated victim behind it. */
    method AbsorbDv(p: nat, newsize: nat)
      requires Ready() && p in l.chunks && l.chunks[p].used && dv != 0 && EndOf(l, p) == dv
      requires dv + dvsize == p + newsize
      modifies this`mem, this`l, this`dv, this`dvsize
      ensures Ready() && Blocks(l) == Blocks(old(l))[p := newsize] && l.base == old(l).base && l.end == old(l).end
      ensures UserSame(l, old(mem), mem)
    {
      hide BinsOk, LayoutOk, TagsOk, NoAdjacentFree, UserSame, Get, KeepsFree, KeepsUsed, Inside, Binnable, Blocks,
        One, Spare;
      BlockIs(l, p);
      VictimIs(l, dv, dvsize);
      InsideTwo(l, p);
      NotBinnable(l, dv, p);
      NotBinnable(l, dv, dv);
      AfterAbsorb(l, p, p + newsize, dv, dvsize, z.binned);
      Absorb(p, newsize);
      dvsize := 0;
      dv := 0;
    }

    /** Makes the chunk at p hold nb bytes where it is, if it can. */
    method TryReallocChunk(p: nat, nb: nat) returns (newp: nat)
      requires Ready() && p in l.chunks && l.chunks[p].used && nb % 16 == 0 && MIN_CHUNK <= nb
      modifies this
      ensures newp != 0 <==> Growable(old(l), p, nb)
      ensures newp == 0 ==> unchanged(this)
      ensures newp != 0 ==> newp == p && Ready() && l.base == old(l).base && l.end == old(l).end
      ensures newp != 0 ==>
        && p in Blocks(l) && Blocks(l) == Blocks(old(l))[p := Blocks(l)[p]] && nb <= Blocks(l)[p] < nb + MIN_CHUNK
      ensures newp != 0 ==> BothSame(old(l), l, old(mem), mem)
    {
      hide BinsOk, LayoutOk, TagsOk, NoAdjacentFree, UserSame, Get, KeepsFree, KeepsUsed, Inside, Binnable, Blocks,
        BothSame, One, Spare, Cinuse, ChunkSize;
      ghost var l0, m0 := l, mem;
      ReadChunk(l, mem, p);
      ReadNext(l, mem, p);
      BlockIs(l, p);
      UserStays(l0, m0);
      BothOf(l0, l0, m0, m0, m0);
      NotBinnable(l, dv, p);
      var oldsize := ChunkSize(Get(mem, Head(p)));
      var next := p + oldsize;
      if oldsize >= nb {
        var rsize := oldsize - nb;
        if rsize >= MIN_CHUNK {
          InsideOne(l, p);
          VictimApart(l, p, dv, dvsize);
          CutAndFree(p, nb, rsize);
        }
        return p;
      } else if next == top {
        if oldsize + topsize > nb {
          GrowIntoTop(p, nb, oldsize);
          BothOf(l0, l, m0, m0, mem);
          return p;
        }
      } else if next == dv {
        var dvs := dvsize;
        if oldsize + dvs >= nb {
          var dsize := oldsize + dvs - nb;
          if dsize >= MIN_CHUNK {
            GrowIntoDv(p, nb, dsize);
          } else {
            AbsorbDv(p, oldsize + dvs);
          }
          BothOf(l0, l, m0, m0, mem);
          return p;
        }
      } else if !Cinuse(Get(mem, Head(next))) {
        ReadChunk(l, mem, next);
        var nextsize := ChunkSize(Get(mem, Head(next)));
        if oldsize + nextsize >= nb {
          var rsize := oldsize + nextsize - nb;
          InBinnable(l, dv, next);
          UnlinkChunk(next, nextsize);
          ghost var m1 := mem;
          InsideTwo(l, p);
          VictimApart(l, p, dv, dvsize);
          if rsize < MIN_CHUNK {
            var newsize := oldsize + nextsize;
            AfterAbsorb(l, p, p + newsize, dv, dvsize, z.binned);
            Absorb(p, newsize);
            BothOf(l0, l, m0, m1, mem);
          } else {
            CutAndFree(p, nb, rsize);
            BothAfter(l0, l, m0, m1, mem);
          }
          return p;
        }
      }
      return 0;
    }

    /** Copies count bytes into the block at r, of which they are usable bytes. */
    method CopyInto(r: nat, src: nat, count: nat)
      requires Ready() && r >= 16 && r - 16 in Blocks(l) && count <= Usable(l, r - 16)
      modifies this`mem
      ensures Ready() && OthersSame(l, old(mem), mem, r - 16) && BytesMoved(old(mem), mem, src, r, count)
    {
      hide BinsOk, LayoutOk, TagsOk, NoAdjacentFree, CallerWrote, OthersSame, BytesMoved, Binnable;
      ghost var m0 := mem;
      BlockSize(l, r - 16);
      mem := MemMove(mem, r, src, count);
      CopyIsCallers(l, m0, mem, r - 16, count);
      CopiedBytes(m0, mem, src, r, count);
      CallerKeeps(l, m0, mem, smallmap, treemap, z);
    }

    /** Allocates a new block, copies what fits, and frees the old block. */
    method MoveBlock(r: nat, bytes: nat) returns (r': nat)
      requires Valid() && Ready() && bytes < MAX_REQUEST && r >= 16 && r - 16 in Blocks(l)
      requires footprint + Growth(l, topsize, Request2Size(bytes)) <= ARENA
      requires r - 16 in l.chunks && !Growable(l, r - 16, Request2Size(bytes))
      modifies this
      ensures Valid() && Ready() && Resized(old(l), l, old(mem), mem, r, r', bytes)
      ensures old(footprint) <= footprint <= old(footprint) + Demand(bytes)
    {
      hide BinsOk, LayoutOk, TagsOk, NoAdjacentFree, UserSame, OthersSame, BytesMoved, Binnable, Blocks, Growable,
        GranularityAlign, Get, ChunkSize, Request2Size, Policy, NoFit, FreeAt, Demand, NoBinned, NoneExact,
        BinnedAtLeast, Growth;
      ghost var l0, m0 := l, mem;
      RequestSizes(bytes);
      BlockSize(l, r - 16);
      r' := Malloc(bytes);
      ghost var l1, m1 := l, mem;
      BlockSize(l1, r - 16);
      BlockSize(l1, r' - 16);
      ReadChunk(l1, m1, r - 16);
      var oc := ChunkSize(Get(mem, Head(r - 16))) - 8;
      var n := if oc < bytes then oc else bytes;
      CopyInto(r', r, n);
      ghost var m2 := mem;
      Free(r);
      MovedOthers(l0, l1, l, m0, m1, m2, mem, r - 16, r' - 16);
      BlockSize(l, r' - 16);
      MovedBytes(l0, l1, l, m0, m1, m2, mem, r - 16, r' - 16, n);
    }

    /** The block before r can be given bytes bytes where it is. */
    ghost predicate InPlace(r: nat, bytes: nat)
      reads this
    {
      r >= 16 && r - 16 in l.chunks && Growable(l, r - 16, Request2Size(bytes))
    }

    /** Makes the block before r hold bytes bytes, in place if possible, keeping its contents. */
    method Realloc(r: nat, bytes: nat) returns (r': nat)
      requires Valid() && bytes < WORD && (r == 0 || (r >= 16 && r - 16 in Blocks(l)))
      requires bytes >= MAX_REQUEST || InPlace(r, bytes) || footprint + Growth(l, topsize, Request2Size(bytes)) <= ARENA
      modifies this
      ensures Valid() && (r' == 0 <==> bytes >= 0xffff_ffff_ffff_ff80)
      ensures r' == 0 ==> unchanged(this)
      ensures old(footprint) <= footprint <= old(footprint) + Demand(bytes)
      ensures r == 0 && r' != 0 ==> Served(r', Request2Size(bytes))
      ensures r != 0 && r' != 0 ==> Ready() && Resized(old(l), l, old(mem), mem, r, r', bytes)
    {
      hide BinsOk, LayoutOk, TagsOk, NoAdjacentFree, UserSame, BothSame, OthersSame, BytesMoved, Binnable, Blocks,
        Growable, GranularityAlign, Get, ChunkSize, PadRequest, Policy, NoFit, FreeAt;
      if r == 0 {
        r' := Malloc(bytes);
        return;
      } else if bytes >= MAX_REQUEST {
        return 0;
      }
      ghost var l0, m0 := l, mem;
      RequestSizes(bytes);
      var nb := Request2Size(bytes);
      var oldp := r - 16;
      if top == 0 { NoBlocks(l); }
      BlockSize(l, oldp);
      ReadChunk(l, mem, oldp);
      var newp := TryReallocChunk(oldp, nb);
      if newp != 0 {
        ResizedInPlace(l0, l, m0, mem, oldp, nb, bytes);
        TopEnd(l);
        return newp + 16;
      }
      r' := MoveBlock(r, bytes);
    }

    /** Allocates room for n elements of elemSize bytes and clears it; a product too large for a word is refused. */
    method Calloc(n: nat, elemSize: nat) returns (r: nat)
      requires Valid() && n < WORD && elemSize < WORD
      requires n * elemSize >= MAX_REQUEST || footprint + Growth(l, topsize, Request2Size(n * elemSize)) <= ARENA
      modifies this
      ensures Valid() && (r == 0 <==> n * elemSize >= 0xffff_ffff_ffff_ff80)
      ensures r == 0 ==> unchanged(this)
      ensures old(footprint) <= footprint <= old(footprint) + Demand(n * elemSize)
      ensures r != 0 ==> Served(r, Request2Size(n * elemSize))
      ensures r != 0 ==> forall i: nat :: i < n * elemSize ==> BlockByte(mem, r, i) == 0
    {
      hide BinsOk, LayoutOk, TagsOk, NoAdjacentFree, UserSame, Binnable, Blocks, GranularityAlign, PadRequest, Policy,
        NoFit, CallerWrote, OthersSame, ByteAt, FreeAt;
      var req := 0;
      if n != 0 {
        req := n * elemSize % WORD;
        if (n > 0xFFFF || elemSize > 0xFFFF) && req / n != elemSize {
          req := WORD - 1;
        }
      }
      ProductChecked(n, elemSize, req);
      r := Malloc(req);
      if r != 0 {
        ghost var l1, m0, m1 := l, old(mem), mem;
        RequestSizes(req);
        BlockSize(l, r - 16);
        mem := MemSet(mem, r, 0, req);
        CopyIsCallers(l, m1, mem, r - 16, req);
        CallerKeeps(l, m1, mem, smallmap, treemap, z);
        ClearedOthers(old(l), l, m0, m1, mem, r - 16);
      }
    }
  }
}
