/**
 * The linked words of the bitwise tries.
 *
 * A position names a bin, a depth, and the size bits decided so far; the child on side b appends bit b.
 * A seating maps the occupied positions to the chunks there. Child, parent and root words say exactly
 * which neighbouring positions are occupied.
 */
module HeapTrie {
  import opened BinIndex
  import opened HeapLayout
  import opened Words

  datatype Pos = Pos(bin: nat, depth: nat, pre: nat)

  type Seating = map<Pos, nat>

  function RootPos(b: nat): Pos {
    Pos(b, 0, RootPre(b))
  }

  function Up(p: Pos): Pos
    requires p.depth > 0
  {
    Pos(p.bin, p.depth - 1, p.pre / 2)
  }

  function Down(p: Pos, side: nat): Pos {
    Pos(p.bin, p.depth + 1, 2 * p.pre + side)
  }

  lemma UpDown(p: Pos, side: nat)
    requires side < 2
    ensures Up(Down(p, side)) == p
  {}

  lemma DownUp(p: Pos)
    requires p.depth > 0
    ensures p == Down(Up(p), p.pre % 2)
  {}

  /** The node at a position, or null. */
  function At(a: Seating, p: Pos): nat {
    if p in a then a[p] else 0
  }

  /** What a node's parent field holds: the root slot of its bin, or the parent node. */
  function ParentOf(a: Seating, p: Pos): nat {
    if p.depth == 0 then Addr(Root(p.bin)) else At(a, Up(p))
  }

  /** The word that points at position p. */
  function Slot(a: Seating, p: Pos): Cell {
    if p.depth == 0 then Root(p.bin) else Child(At(a, Up(p)), p.pre % 2)
  }

  /** Occupied positions are distinct chunks and reach up to a root. */
  ghost predicate Seated(a: Seating) {
    && (forall p :: p in a ==> a[p] > 0 && p.bin < NTREEBINS)
    && (forall p, q :: p in a && q in a && a[p] == a[q] ==> p == q)
    && (forall p {:trigger Up(p)} :: p in a && p.depth > 0 ==> Up(p) in a)
    && (forall p :: p in a && p.depth == 0 ==> p == RootPos(p.bin))
  }

  ghost predicate SeatWords(m: Memory, a: Seating, p: Pos)
    requires p in a
  {
    && Get(m, Child(a[p], 0)) == At(a, Down(p, 0))
    && Get(m, Child(a[p], 1)) == At(a, Down(p, 1))
    && Get(m, Parent(a[p])) == ParentOf(a, p)
    && Get(m, Index(a[p])) == p.bin
  }

  ghost predicate RootWords(m: Memory, a: Seating) {
    forall b :: 0 <= b < NTREEBINS ==> Get(m, Root(b)) == At(a, RootPos(b))
  }

  ghost predicate WordsOk(m: Memory, a: Seating) {
    (forall p {:trigger SeatWords(m, a, p)} :: p in a ==> SeatWords(m, a, p)) && RootWords(m, a)
  }

  /** p may be occupied: it is a root, or hangs from an occupied position. */
  ghost predicate Reachable(a: Seating, p: Pos) {
    && p.bin < NTREEBINS
    && (p.depth == 0 ==> p == RootPos(p.bin))
    && (p.depth > 0 ==> Up(p) in a)
  }

  /** The cells of the seating keep their words, except the slot of p and the parent fields of its children. */
  ghost predicate SeatCellsSame(m: Memory, m': Memory, a: Seating, p: Pos) {
    && (forall q, i :: q in a && q != p && 0 <= i < 2 && Child(a[q], i) != Slot(a, p) ==>
        Get(m', Child(a[q], i)) == Get(m, Child(a[q], i)))
    && (forall q ::
        q in a && q != p && q != Down(p, 0) && q != Down(p, 1) ==> Get(m', Parent(a[q])) == Get(m, Parent(a[q])))
    && (forall q :: q in a && q != p ==> Get(m', Index(a[q])) == Get(m, Index(a[q])))
    && (forall b :: 0 <= b < NTREEBINS && Root(b) != Slot(a, p) ==> Get(m', Root(b)) == Get(m, Root(b)))
  }

  /** r is linked at position p: from above, to the children, and back from them. */
  ghost predicate LinkedIn(m': Memory, a: Seating, p: Pos, r: nat) {
    && Get(m', Slot(a, p)) == r
    && Get(m', Parent(r)) == ParentOf(a, p) && Get(m', Index(r)) == p.bin
    && Get(m', Child(r, 0)) == At(a, Down(p, 0)) && Get(m', Child(r, 1)) == At(a, Down(p, 1))
    && (forall i :: 0 <= i < 2 && Down(p, i) in a ==> Get(m', Parent(At(a, Down(p, i)))) == r)
  }

  /** Seating r at p, whether p was empty or another chunk had to make room. */
  lemma {:induction false} SetSeat(m: Memory, m': Memory, a: Seating, p: Pos, r: nat)
    requires Seated(a) && WordsOk(m, a) && Reachable(a, p)
    requires r > 0 && r !in a.Values
    requires LinkedIn(m', a, p, r) && SeatCellsSame(m, m', a, p)
    ensures Seated(a[p := r]) && WordsOk(m', a[p := r])
  {
    var a' := a[p := r];
    forall q | q in a' ensures SeatWords(m', a', q) {
      assert q in a && q != p ==> SeatWords(m, a, q);
      if q == p { OwnWords(m', a, p, r); } else { OtherWords(m, m', a, p, r, q); }
    }
    assert RootWords(m', a') by {
      forall b | 0 <= b < NTREEBINS ensures Get(m', Root(b)) == At(a', RootPos(b)) {}
    }
    assert Seated(a') by { SetSeated(a, p, r); }
  }

  lemma SetSeated(a: Seating, p: Pos, r: nat)
    requires Seated(a) && Reachable(a, p) && r > 0 && r !in a.Values
    ensures Seated(a[p := r])
  {
    var a' := a[p := r];
    hide Up;
    forall q | q in a' && q.depth > 0 ensures Up(q) in a' { assert q in a && q.depth > 0 ==> Up(q) in a; }
    forall q, t | q in a' && t in a' && a'[q] == a'[t] ensures q == t {
      NotSeated(a, r, q);
      NotSeated(a, r, t);
    }
  }

  lemma NotSeated(a: Seating, r: nat, q: Pos)
    requires r !in a.Values
    ensures q in a ==> a[q] != r
  {
    if q in a { assert a[q] in a.Values; }
  }

  lemma OwnWords(m': Memory, a: Seating, p: Pos, r: nat)
    requires LinkedIn(m', a, p, r)
    ensures SeatWords(m', a[p := r], p)
  {}

  /** The slot of p is a child field of q exactly when p is that child's position. */
  lemma SlotIs(a: Seating, p: Pos, q: Pos, i: nat)
    requires Seated(a) && Reachable(a, p) && q in a && i < 2
    ensures Child(a[q], i) == Slot(a, p) <==> Down(q, i) == p
  {
    UpDown(q, i);
    if p.depth > 0 {
      DownUp(p);
      hide Up, Down;
    }
  }

  lemma OtherWords(m: Memory, m': Memory, a: Seating, p: Pos, r: nat, q: Pos)
    requires Seated(a) && Reachable(a, p) && q in a && q != p && SeatWords(m, a, q)
    requires r > 0 && LinkedIn(m', a, p, r) && SeatCellsSame(m, m', a, p)
    ensures SeatWords(m', a[p := r], q)
  {
    hide Up, Down, Slot, Seated, Get, Reachable;
    SlotIs(a, p, q, 0);
    SlotIs(a, p, q, 1);
    ParentIs(a, p, q);
  }

  /** q hangs from p exactly when it is one of p's two children. */
  lemma ParentIs(a: Seating, p: Pos, q: Pos)
    ensures q.depth > 0 && Up(q) == p <==> q == Down(p, 0) || q == Down(p, 1)
    ensures q.depth > 0 && Up(q) == p && q in a ==>
      exists i :: 0 <= i < 2 && Down(p, i) == q
  {
    UpDown(p, 0);
    UpDown(p, 1);
    if q.depth > 0 { DownUp(q); }
  }

  /** Emptying a leaf position. */
  lemma ClearSeated(a: Seating, p: Pos)
    requires Seated(a) && p in a && Down(p, 0) !in a && Down(p, 1) !in a
    ensures Seated(a - {p})
  {
    hide Up, Down;
    forall q | q in a - {p} ensures Reachable(a - {p}, q) {
      assert Reachable(a, q);
      ParentIs(a, p, q);
    }
  }

  lemma {:induction false} ClearSeat(m: Memory, m': Memory, a: Seating, p: Pos)
    requires Seated(a) && WordsOk(m, a) && p in a
    requires Down(p, 0) !in a && Down(p, 1) !in a
    requires Get(m', Slot(a, p)) == 0 && SeatCellsSame(m, m', a, p)
    ensures Seated(a - {p}) && WordsOk(m', a - {p})
  {
    var a' := a - {p};
    ClearSeated(a, p);
    hide Seated, SeatWords, SeatCellsSame, Slot, Up, Down, Get;
    forall q | q in a' ensures SeatWords(m', a', q) {
      assert SeatWords(m, a, q);
      OtherWordsCleared(m, m', a, p, q);
    }
    forall b | 0 <= b < NTREEBINS ensures Get(m', Root(b)) == At(a', RootPos(b)) {
      assert RootPos(b) == p <==> Root(b) == Slot(a, p);
    }
  }

  lemma OtherWordsCleared(m: Memory, m': Memory, a: Seating, p: Pos, q: Pos)
    requires Seated(a) && p in a && q in a && q != p && SeatWords(m, a, q)
    requires Down(p, 0) !in a && Down(p, 1) !in a
    requires Get(m', Slot(a, p)) == 0 && SeatCellsSame(m, m', a, p)
    ensures SeatWords(m', a - {p}, q)
  {
    assert Reachable(a, p);
    hide Up, Down, Slot, Seated, Get, Reachable;
    SlotIs(a, p, q, 0);
    SlotIs(a, p, q, 1);
    ParentIs(a, p, q);
  }
}
