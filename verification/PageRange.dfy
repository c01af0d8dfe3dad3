/**
 * Ranges of virtual pages: which places they cover, and what an operation on a range leaves alone.
 */
module PageRange {
  import opened Basics
  import opened Words
  import opened PageTables
  import opened PageWorld

  /** The place of page k of a range. */
  function PageAt(root: nat, address: nat, k: nat): Pos {
    At(root, address + PAGE * k, 4)
  }

  ghost predicate Covers(root: nat, address: nat, n: nat, x: Pos) {
    exists k: nat {:trigger PageAt(root, address, k)} :: k < n && PageAt(root, address, k) == x
  }

  /** The walks for all pages of the range stay within unshared tables. */
  ghost predicate OwnPages(w: World, root: nat, address: nat, n: nat) {
    forall k: nat {:trigger PageAt(root, address, k)} :: k < n ==> Own(w, root, address + PAGE * k)
  }

  /** w' keeps the tables of w and has used up pages from the front of the list. */
  ghost predicate Extends(w: World, w': World) {
    && w'.foreign == w.foreign
    && (forall p :: p in w.tabs ==> p in w'.tabs && w'.tabs[p] == w.tabs[p])
    && |w'.free| <= |w.free| && w'.free == w.free[|w.free| - |w'.free|..]
    && Reach(w') <= Reach(w)
  }

  lemma ExtendsTwice(w: World, w1: World, w': World)
    requires Extends(w, w1) && Extends(w1, w')
    ensures Extends(w, w')
  {
    hide Reach;
    forall p | p in w.tabs ensures p in w'.tabs && w'.tabs[p] == w.tabs[p] { assert p in w1.tabs; }
  }

  lemma OwnExtends(w: World, w': World, root: nat, va: nat)
    requires Own(w, root, va) && Extends(w, w')
    ensures Own(w', root, va)
  {
    hide Reach;
  }

  lemma OwnPagesExtend(w: World, w': World, root: nat, address: nat, n: nat)
    requires OwnPages(w, root, address, n) && Extends(w, w')
    ensures OwnPages(w', root, address, n)
  {
    hide Own, Extends;
    forall k: nat | k < n ensures Own(w', root, address + PAGE * k) {
      assert PageAt(root, address, k) == At(root, address + PAGE * k, 4);
      OwnExtends(w, w', root, address + PAGE * k);
    }
  }

  /** Pages outside the range are mapped as before. */
  ghost predicate OthersKept(m: Memory, w: World, m': Memory, w': World, root: nat, address: nat, n: nat) {
    forall x {:trigger Mapped(m', w', x)} ::
      EntryPos(x) && !Covers(root, address, n, x) ==> Mapped(m', w', x) == Mapped(m, w, x)
  }

  lemma AtBounds(root: nat, va: nat, n: nat)
    ensures EntryPos(At(root, va, n))
  {
    if n > 0 { DownUp(At(root, va, n - 1), Index(va, n - 1)); }
  }

  /** Doing page k after the pages before it. */
  lemma OthersStep(m: Memory, w: World, m1: Memory, w1: World, m': Memory, w': World, root: nat, address: nat, k: nat,
                   e: nat)
    requires OthersKept(m, w, m1, w1, root, address, k) && MappedBut(m1, w1, m', w', PageAt(root, address, k), e)
    ensures OthersKept(m, w, m', w', root, address, k + 1)
  {
    hide Mapped, PageAt;
    forall x | EntryPos(x) && !Covers(root, address, k + 1, x) ensures Mapped(m', w', x) == Mapped(m, w, x) {
      assert PageAt(root, address, k) != x;
      assert !Covers(root, address, k, x);
      assert Mapped(m', w', x) == Mapped(m1, w1, x);
    }
  }

  lemma OthersSkip(m: Memory, w: World, m': Memory, w': World, root: nat, address: nat, k: nat)
    requires OthersKept(m, w, m', w', root, address, k)
    ensures OthersKept(m, w, m', w', root, address, k + 1)
  {
    hide Mapped, PageAt;
    forall x | EntryPos(x) && !Covers(root, address, k + 1, x) ensures Mapped(m', w', x) == Mapped(m, w, x) {
      assert !Covers(root, address, k, x);
    }
  }

  // ----- page numbers

  lemma Digit(x: nat, k: nat)
    requires k > 0
    ensures x % (512 * k) == (x / 512 % k) * 512 + x % 512
  {
    var h, r := x / 512, x % 512;
    var q, s := h / k, h % k;
    assert x == 512 * h + r && h == k * q + s;
    assert x == (512 * k) * q + (512 * s + r) by { assert 512 * (k * q) == (512 * k) * q; }
    Remainder(x, 512 * k, q, 512 * s + r);
  }

  /** The page number of an address, of which the four indices are the digits. */
  function PageNumber(va: nat): nat {
    va / PAGE % 0x10_0000_0000
  }

  lemma NumberDigits(va: nat)
    ensures PageNumber(va) == ((Index(va, 0) * 512 + Index(va, 1)) * 512 + Index(va, 2)) * 512 + Index(va, 3)
  {
    var x := va / PAGE;
    Digit(x, 0x800_0000);
    Digit(x / 512, 0x4_0000);
    Digit(x / 512 / 512, 512);
    assert va / 0x20_0000 == x / 512;
    assert va / 0x4000_0000 == x / 512 / 512;
    assert va / 0x80_0000_0000 == x / 512 / 512 / 512;
    assert x / 512 / 512 % (512 * 512) == (x / 512 / 512 / 512 % 512) * 512 + x / 512 / 512 % 512;
  }

  /** Two addresses have the same place exactly when they have the same page number. */
  lemma SamePlace(root: nat, va: nat, root': nat, va': nat)
    ensures At(root, va, 4) == At(root', va', 4) <==> root == root' && PageNumber(va) == PageNumber(va')
  {
    NumberDigits(va);
    NumberDigits(va');
    hide PageNumber, Index, At;
    if At(root, va, 4) == At(root', va', 4) {
      SameIndices(root, va, root', va', 4);
    }
    if root == root' && PageNumber(va) == PageNumber(va') {
      SamePath(root, va, va', 4);
    }
  }

  lemma {:induction false} SameIndices(root: nat, va: nat, root': nat, va': nat, n: nat)
    requires At(root, va, n) == At(root', va', n)
    ensures root == root' && forall j :: 0 <= j < n ==> Index(va, j) == Index(va', j)
    decreases n
  {
    if n > 0 {
      DownUp(At(root, va, n - 1), Index(va, n - 1));
      DownUp(At(root', va', n - 1), Index(va', n - 1));
      hide Index;
      SameIndices(root, va, root', va', n - 1);
    }
  }

  lemma {:induction false} SamePath(root: nat, va: nat, va': nat, n: nat)
    requires forall j :: 0 <= j < n ==> Index(va, j) == Index(va', j)
    ensures At(root, va, n) == At(root, va', n)
    decreases n
  {
    if n > 0 {
      hide Index;
      SamePath(root, va, va', n - 1);
    }
  }

  /** The pages of a range within the address span are at different places. */
  lemma PagesDiffer(root: nat, address: nat, j: nat, k: nat)
    requires j < k <= 0x10_0000_0000 && address % PAGE == 0 && k - j < 0x10_0000_0000
    ensures PageAt(root, address, j) != PageAt(root, address, k)
  {
    SamePlace(root, address + PAGE * j, root, address + PAGE * k);
    NumberOf(address, j);
    NumberOf(address, k);
    ShiftedDiffer(address / PAGE + j, k - j);
    hide PageNumber;
  }

  lemma NumberOf(address: nat, k: nat)
    requires address % PAGE == 0
    ensures PageNumber(address + PAGE * k) == (address / PAGE + k) % 0x10_0000_0000
  {
    var a := address / PAGE;
    assert address + PAGE * k == PAGE * (a + k);
    PageDivides(a + k, 0);
  }

  lemma ShiftedDiffer(x: nat, d: nat)
    requires 0 < d < 0x10_0000_0000
    ensures (x + d) % 0x10_0000_0000 != x % 0x10_0000_0000
  {}

  // ----- composing steps

  lemma GrownExtends(w: World, w': World, root: nat, va: nat)
    requires Grown(w, w', root, va)
    ensures Extends(w, w') && Reach(w') == Reach(w)
  {}

  lemma GrownFree(w: World, w': World, root: nat, va: nat)
    requires Grown(w, w', root, va)
    ensures forall f :: f in w'.free ==> f in w.free
  {}

  lemma ButAfterKept(m: Memory, w: World, m1: Memory, w1: World, m': Memory, w': World, q: Pos, e: nat)
    requires MapsKept(m, w, m1, w1) && MappedBut(m1, w1, m', w', q, e)
    ensures MappedBut(m, w, m', w', q, e)
  {
    hide Mapped;
    forall x | EntryPos(x)
      ensures Mapped(m', w', x) == if x == q then (if Present(e) then Some(e) else None) else Mapped(m, w, x)
    {
      assert Mapped(m1, w1, x) == Mapped(m, w, x);
    }
  }

  /** The entry of a page that was mapped already is found as it was, and no table was built for it. */
  lemma EntryHere(m: Memory, last: nat, w: World, m1: Memory, w1: World, root: nat, va: nat)
    requires MapsKept(m, w, m1, w1) && Grown(w, w1, root, va) && At(root, va, 3) in w1.tabs
    requires WorldOk(m, last, w)
    ensures Mapped(m, w, At(root, va, 4)).Some? ==>
      w1.tabs == w.tabs && Load(m1, w1.tabs[At(root, va, 3)] + 8 * Index(va, 3)) == Mapped(m, w, At(root, va, 4)).value
  {
    AtBounds(root, va, 4);
    DownUp(At(root, va, 3), Index(va, 3));
    if Mapped(m, w, At(root, va, 4)).Some? {
      assert Mapped(m1, w1, At(root, va, 4)) == Mapped(m, w, At(root, va, 4));
      forall p | p in w1.tabs && p !in w.tabs ensures false {
        var k :| 0 < k <= 3 && p == At(root, va, k);
        OnWalk(w, root, va, k, 3);
      }
      hide Mapped, MapsKept, At;
    }
  }

  lemma {:induction false} OnWalk(w: World, root: nat, va: nat, k: nat, n: nat)
    requires TabsOk(w) && At(root, va, n) in w.tabs && k <= n
    ensures At(root, va, k) in w.tabs
    decreases n
  {
    if k < n {
      hide Index;
      DownUp(At(root, va, n - 1), Index(va, n - 1));
      assert Up(At(root, va, n)) in w.tabs;
      OnWalk(w, root, va, k, n - 1);
    }
  }

  /** The count without one reference. */
  function Lowered(c: map<nat, nat>, page: nat): map<nat, nat> {
    if Count(c, page) == 0 then c else if Count(c, page) == 1 then c - {page} else c[page := Count(c, page) - 1]
  }

  /** Counts change only for pages that have left the list. */
  ghost predicate CountsGrow(w: World, w': World, c: map<nat, nat>, c': map<nat, nat>) {
    forall p: nat {:trigger Count(c', p)} :: p !in w.free || p in w'.free ==> Count(c', p) == Count(c, p)
  }

  lemma GrowSelf(w: World, c: map<nat, nat>)
    ensures CountsGrow(w, w, c, c)
  {}

  lemma GrowStep(w0: World, w1: World, w: World, c0: map<nat, nat>, c1: map<nat, nat>, t: nat)
    requires CountsGrow(w0, w1, c0, c1) && t in w1.free && t !in w.free
    requires (forall f :: f in w.free ==> f in w1.free) && (forall f :: f in w1.free ==> f in w0.free)
    ensures CountsGrow(w0, w, c0, c1[t := Count(c1, t) + 1])
  {
    var c := c1[t := Count(c1, t) + 1];
    forall p: nat | p !in w0.free || p in w.free ensures Count(c, p) == Count(c0, p) {
      assert p != t;
      assert Count(c1, p) == Count(c0, p);
    }
  }

}
