/**
 * What the operations of the memory manager are to do, one after the other, and what follows for whole runs.
 */
module PageRuns {
  import opened Basics
  import opened Words
  import opened PageTables
  import opened PageWorld
  import opened PageRange
  import opened PageSteps
  import opened PageVisits
  import opened PageOwed
  import opened PageLedger
  import opened PageBooks
  import opened PageRoots

  datatype PageOp =
    | Anonymous(rootId: nat, address: nat, size: nat)
    | Mirror(rootId: nat, address: nat, srootId: nat, saddress: nat, size: nat)
    | Unmap(rootId: nat, address: nat, size: nat)
    | Protect(rootId: nat, address: nat, size: nat, flags: nat)
    | MakeRoot
    | Acquire(rootId: nat)
    | Release(rootId: nat)

  /** How many unused pages an operation may need. */
  function Need(op: PageOp): nat {
    match op
    case Anonymous(_, _, size) => 4 * (size / PAGE)
    case Mirror(_, _, _, _, size) => 3 * (size / PAGE)
    case MakeRoot => 9
    case _ => 0
  }

  function RootOf(roots: map<nat, nat>, id: nat): nat {
    if id in roots then roots[id] else 0
  }

  // ----- ranges that no root shares

  /** None of these pages is reached by way of a shared place. */
  ghost predicate AsidePages(shared: set<seq<nat>>, address: nat, n: nat) {
    forall k: nat {:trigger PageAt(0, address, k)} :: k < n ==> Aside(shared, address + PAGE * k)
  }

  ghost predicate Aside(shared: set<seq<nat>>, va: nat) {
    forall j {:trigger At(0, va, j)} :: 0 < j <= 3 ==> At(0, va, j).path !in shared
  }

  /** Places are shared at these paths only, the window among them. */
  ghost predicate SharedAt(w: World, shared: set<seq<nat>>) {
    [384] in shared && forall q {:trigger q in w.foreign} :: q in w.foreign ==> q.path in shared
  }

  ghost predicate KernelShared(shared: set<seq<nat>>) {
    && [384] in shared && [511, 511, 511] in shared && [511, 511, 510] in shared && [511, 511, 509] in shared
    && [288, 0, 0] in shared
  }

  /**
   * What the caller has to see to: ranges are not shared, mirrored ranges not longer than the address space, and the
   * manager's own root stays.
   */
  ghost predicate Allowed(shared: set<seq<nat>>, own: nat, op: PageOp) {
    match op
    case Anonymous(_, a, size) => AsidePages(shared, a, size / PAGE)
    case Mirror(_, a, _, sa, size) =>
      && size <= SPAN && AsidePages(shared, a, size / PAGE)
      && AsidePages(shared, sa, size / PAGE)
    case Unmap(_, a, size) => AsidePages(shared, a, size / PAGE)
    case Protect(_, a, size, flags) => IsFlags(flags) && AsidePages(shared, a, size / PAGE)
    case Release(id) => id != own
    case _ => true
  }

  /** In the lower half of the address space, where tasks have their pages. */
  predicate LowerHalf(address: nat, size: nat) {
    address + size <= 0x8000_0000_0000
  }

  /** Where only the upper half is shared, every operation on the lower half may be part of a run. */
  lemma LowerHalfAllowed(shared: set<seq<nat>>, own: nat, op: PageOp)
    requires forall p :: p in shared ==> |p| > 0 && p[0] >= 256
    requires match op
      case Anonymous(_, a, size) => LowerHalf(a, size)
      case Mirror(_, a, _, sa, size) => LowerHalf(a, size) && LowerHalf(sa, size)
      case Unmap(_, a, size) => LowerHalf(a, size)
      case Protect(_, a, size, flags) =>
        && LowerHalf(a, size)
        && (flags < 0x1000 || 0x8000_0000_0000_0000 <= flags < 0x8000_0000_0000_1000)
      case Release(id) => id != own
      case _ => true
    ensures Allowed(shared, own, op)
  {
    hide AsidePages;
    match op
    case Anonymous(_, a, size) => LowerHalfAside(shared, a, size);
    case Mirror(_, a, _, sa, size) => LowerHalfAside(shared, a, size); LowerHalfAside(shared, sa, size);
    case Unmap(_, a, size) => LowerHalfAside(shared, a, size);
    case Protect(_, a, size, _) => LowerHalfAside(shared, a, size);
    case _ =>
  }

  lemma LowerHalfAside(shared: set<seq<nat>>, address: nat, size: nat)
    requires forall p :: p in shared ==> |p| > 0 && p[0] >= 256
    requires LowerHalf(address, size)
    ensures AsidePages(shared, address, size / PAGE)
  {
    forall k: nat | k < size / PAGE ensures Aside(shared, address + PAGE * k) {
      var va := address + PAGE * k;
      assert va < 0x8000_0000_0000;
      assert Index(va, 0) < 256;
      hide Index;
      forall j | 0 < j <= 3 ensures At(0, va, j).path !in shared { FirstDigit(0, va, j); }
    }
  }

  lemma AsidePrivate(w: World, shared: set<seq<nat>>, root: nat, va: nat)
    requires SharedAt(w, shared) && Aside(shared, va) && Pos(root, []) in w.tabs
    ensures Private(w, root, va)
  {
    hide Index;
    forall j | 0 < j <= 3 ensures At(root, va, j) !in w.foreign {
      SamePathAt(0, root, va, j);
      assert At(0, va, j).path !in shared;
    }
    FirstOf(va);
    assert At(0, va, 1).path !in shared;
  }

  lemma FirstOf(va: nat)
    ensures At(0, va, 1).path == [Index(va, 0)]
  {
    assert At(0, va, 1) == Down(At(0, va, 0), Index(va, 0));
    assert [] + [Index(va, 0)] == [Index(va, 0)];
  }

  lemma UnsharedPrivate(w: World, shared: set<seq<nat>>, root: nat, address: nat, n: nat)
    requires SharedAt(w, shared) && AsidePages(shared, address, n) && Pos(root, []) in w.tabs
    ensures PrivatePages(w, root, address, n)
  {
    hide SharedAt, Private, Aside, At;
    forall k: nat | k < n ensures Private(w, root, address + PAGE * k) {
      assert PageAt(0, address, k) == At(0, address + PAGE * k, 4);
      AsidePrivate(w, shared, root, address + PAGE * k);
    }
  }

  // ----- what an operation has to do

  /** A moment of a run: the roots and what refers to them, and the state of the pages. */
  datatype Moment = Moment(f: Frame, s: Snap, refs: map<nat, nat>)

  predicate RefusedBy(roots: map<nat, nat>, id: nat, address: nat, size: nat) {
    RootOf(roots, id) == 0 || address % PAGE != 0 || size % PAGE != 0
  }

  /** Some target page is mapped or some source page is not. */
  ghost predicate MirrorBlocked(m: Memory, root: nat, address: nat, sroot: nat, saddress: nat, n: nat) {
    || (exists k: nat :: k < n && TransAt(m, root, address, k).Some?)
    || (exists k: nat :: k < n && TransAt(m, sroot, saddress, k).None?)
  }

  /** The pages of a range are mapped to pages of their own from the list; what was mapped there is lost. */
  ghost predicate Filled(a: Snap, b: Snap, root: nat, address: nat, size: nat) {
    var n := size / PAGE;
    && FreshPages(b.mem, b.w, a.w, root, address, n) && PagesApart(b.mem, b.w, root, address, n)
    && CountedOnce(b.mem, b.w, b.counts, root, address, n) && CountsGrow(a.w, b.w, a.counts, b.counts)
    && (size <= SPAN ==> LostBy(a.mem, a.w, a.lost, b.lost, root, address, n))
  }

  ghost predicate Emptied(a: Snap, b: Snap, root: nat, address: nat, size: nat) {
    && AllUnmapped(b.mem, b.w, root, address, size / PAGE) && FreedExactly(a.w, a.counts, b.w, b.counts)
    && b.lost == a.lost
    && (size <= SPAN ==> LoweredBy(a.mem, a.w, a.counts, b.counts, root, address, size / PAGE))
  }

  ghost predicate Reflagging(a: Snap, b: Snap, root: nat, address: nat, size: nat, flags: nat) {
    && b.w == a.w && b.counts == a.counts && AllReflagged(a.mem, b.mem, b.w, root, address, size / PAGE, flags)
    && (Present(flags) ==> b.lost == a.lost)
    && (!Present(flags) && size <= SPAN ==> LostBy(a.mem, a.w, a.lost, b.lost, root, address, size / PAGE))
  }

  ghost predicate Mirroring(a: Snap, b: Snap, root: nat, address: nat, sroot: nat, saddress: nat, n: nat) {
    && Mirrors(a.mem, a.w, b.mem, b.w, root, address, sroot, saddress, n) && b.lost == a.lost
    && RaisedBy(a.mem, a.w, b.w, a.counts, b.counts, sroot, saddress, n)
  }

  /** A range operation that is not refused: places outside the range, and what other roots owe, stay. */
  ghost predicate Elsewhere(a: Moment, b: Moment, id: nat, address: nat, size: nat) {
    && b.f == a.f && b.refs == a.refs && OthersOwe(a.s.mem, b.s.mem, a.f.roots, id)
    && OthersKept(a.s.mem, a.s.w, b.s.mem, b.s.w, RootOf(a.f.roots, id), address, size / PAGE)
  }

  /** The roots named owe what they owed. */
  ghost predicate AllOwe(m: Memory, m': Memory, roots: map<nat, nat>) {
    forall x {:trigger x in roots} :: x in roots ==> RootVisits(m', roots[x]) == RootVisits(m, roots[x])
  }

  /** Pages under all roots but one are mapped as before. */
  ghost predicate MapsBut(a: Snap, b: Snap, root: nat) {
    forall x {:trigger Mapped(b.mem, b.w, x)} ::
      EntryPos(x) && x.root != root ==> Mapped(b.mem, b.w, x) == Mapped(a.mem, a.w, x)
  }

  /** The result of an operation and the state after it. */
  ghost predicate Effect(a: Moment, op: PageOp, r: int, b: Moment) {
    var roots := a.f.roots;
    match op
    case Anonymous(id, address, size) =>
      && r == (if RefusedBy(roots, id, address, size) then -1 else 0)
      && (if r == -1 then b == a
          else Filled(a.s, b.s, RootOf(roots, id), address, size) && Elsewhere(a, b, id, address, size))
    case Mirror(id, address, sid, saddress, size) =>
      var root, sroot, n := RootOf(roots, id), RootOf(roots, sid), size / PAGE;
      && r == (if root == 0 || sroot == 0 then -1
               else if RefusedBy(roots, id, address, size) || RefusedBy(roots, sid, saddress, size)
                 || MirrorBlocked(a.s.mem, root, address, sroot, saddress, n) then 1
               else 0)
      && (if r != 0 then b == a
          else Mirroring(a.s, b.s, root, address, sroot, saddress, n) && Elsewhere(a, b, id, address, size))
    case Unmap(id, address, size) =>
      && r == (if RefusedBy(roots, id, address, size) then -1 else 0)
      && (if r == -1 then b == a
          else Emptied(a.s, b.s, RootOf(roots, id), address, size) && Elsewhere(a, b, id, address, size))
    case Protect(id, address, size, flags) =>
      && r == (if RefusedBy(roots, id, address, size) then -1 else 0)
      && (if r == -1 then b == a
          else Reflagging(a.s, b.s, RootOf(roots, id), address, size, flags) && Elsewhere(a, b, id, address, size))
    case MakeRoot =>
      && r >= 0 && r !in roots && r in b.f.roots && b.f.roots == roots[r := b.f.roots[r]] && b.f.roots[r] in a.s.w.free
      && b.f.ids == a.f.ids + [r] && b.f.base == a.f.base && b.f.pool == a.f.pool && b.refs == a.refs
      && b.s.lost == a.s.lost && AllOwe(a.s.mem, b.s.mem, roots)
      && MapsBut(a.s, b.s, b.f.roots[r])
    case Acquire(id) => id in roots && b == a.(refs := a.refs[id := Count(a.refs, id) + 1])
    case Release(id) =>
      && Count(b.refs, id) == (if Count(a.refs, id) == 0 then 0 else Count(a.refs, id) - 1)
      && (forall x :: x != id ==> Count(b.refs, x) == Count(a.refs, x))
      && (if Count(a.refs, id) != 1 then b.f == a.f && b.s == a.s
          else
            && id in roots && b.f == Drop(a.f, id) && b.s.lost == a.s.lost && AllOwe(a.s.mem, b.s.mem, b.f.roots)
            && MapsBut(a.s, b.s, roots[id]))
  }

  /** The root that was made has the kernel's regions as the other root had them. */
  ghost predicate HasKernel(a: Moment, current: nat, r: int, b: Moment) {
    && r in b.f.roots && KernelWords(a.s.mem, current, b.s.mem, b.f.roots[r])
    && KernelSeen(a.s.mem, current, b.s.mem, b.f.roots[r])
  }

  /** An operation that is carried out, or one that is not: for want of pages, or of the root it refers to. */
  ghost predicate Step(a: Moment, op: PageOp, r: Option<int>, b: Moment) {
    match r
    case Some(x) => Effect(a, op, x, b)
    case None => b == a && (Need(op) > |a.s.w.free| || (op.Acquire? && op.rootId !in a.f.roots))
  }

  /** A run: moments that are all in order, each the effect of an operation on the one before. */
  ghost predicate IsTrace(ops: seq<PageOp>, results: seq<Option<int>>, history: seq<Moment>) {
    && |results| == |ops| && |history| == |ops| + 1
    && (forall k :: 0 <= k < |history| ==> Whole(history[k].f, history[k].s))
    && (forall k :: 0 <= k < |ops| ==> Step(history[k], ops[k], results[k], history[k + 1]))
  }

  /**
   * An operation is passed over only for want of pages, three for the tables of a page and one for the page, or because
   * the root is unknown. Unmapping, protecting and releasing are never passed over.
   */
  lemma PassedOnly(ops: seq<PageOp>, results: seq<Option<int>>, history: seq<Moment>, k: nat)
    requires IsTrace(ops, results, history) && k < |ops| && results[k].None?
    ensures history[k + 1] == history[k]
    ensures var n, roots := |history[k].s.w.free|, history[k].f.roots;
      match ops[k]
      case Anonymous(_, _, size) => n < 4 * (size / 0x1000)
      case Mirror(_, _, _, _, size) => n < 3 * (size / 0x1000)
      case MakeRoot => n < 9
      case Acquire(id) => id !in roots
      case Unmap(_, _, _) => false
      case Protect(_, _, _, _) => false
      case Release(_) => false
  {
    hide Whole, Effect;
    assert Step(history[k], ops[k], results[k], history[k + 1]);
  }

  // ----- what stays in a run

  /** The operation may change how x is mapped. */
  ghost predicate Targets(roots: map<nat, nat>, op: PageOp, x: Pos) {
    match op
    case Anonymous(id, address, size) => Covers(RootOf(roots, id), address, size / PAGE, x)
    case Mirror(id, address, _, _, size) => Covers(RootOf(roots, id), address, size / PAGE, x)
    case Unmap(id, address, size) => Covers(RootOf(roots, id), address, size / PAGE, x)
    case Protect(id, address, size, _) => Covers(RootOf(roots, id), address, size / PAGE, x)
    case _ => false
  }

  /**
   * A place that no operation of a run targets is mapped at the end as at the start, if its root is live throughout.
   */
  lemma {:induction false} UntargetedStays(ops: seq<PageOp>, results: seq<Option<int>>, history: seq<Moment>, x: Pos)
    requires IsTrace(ops, results, history) && EntryPos(x)
    requires forall k :: 0 <= k < |ops| ==> !Targets(history[k].f.roots, ops[k], x)
    requires forall k :: 0 <= k < |history| ==> x.root in history[k].f.roots.Values
    ensures Mapped(history[|ops|].s.mem, history[|ops|].s.w, x) == Mapped(history[0].s.mem, history[0].s.w, x)
  {
    hide EntryPos, Mapped, Step, Targets, Whole;
    for k := 0 to |ops|
      invariant Mapped(history[k].s.mem, history[k].s.w, x) == Mapped(history[0].s.mem, history[0].s.w, x)
    {
      assert Step(history[k], ops[k], results[k], history[k + 1]);
      StepKeeps(history[k], ops[k], results[k], history[k + 1], x);
    }
  }

  lemma StepKeeps(a: Moment, op: PageOp, r: Option<int>, b: Moment, x: Pos)
    requires Whole(a.f, a.s) && Whole(b.f, b.s) && Step(a, op, r, b) && EntryPos(x) && !Targets(a.f.roots, op, x)
    requires x.root in a.f.roots.Values && x.root in b.f.roots.Values
    ensures Mapped(b.s.mem, b.s.w, x) == Mapped(a.s.mem, a.s.w, x)
  {
    hide Filled, Emptied, Reflagging, Mirroring, MirrorBlocked, RefusedBy, Mapped, EntryPos, Covers, OthersOwe,
      AllOwe, Whole, Without;
    RootsDiffer(a.f, a.s);
    RootsDiffer(b.f, b.s);
    var y :| y in a.f.roots && a.f.roots[y] == x.root;
    var z :| z in b.f.roots && b.f.roots[z] == x.root;
    if r.Some? {
      match op {
        case MakeRoot => assert b.f.roots[y] == a.f.roots[y];
        case Release(id) => if Count(a.refs, id) == 1 { assert a.f.roots[z] == x.root && z != id; }
        case _ =>
      }
    }
  }

  lemma RootsDiffer(f: Frame, s: Snap)
    requires Whole(f, s)
    ensures forall id, id' :: id in f.roots && id' in f.roots && f.roots[id] == f.roots[id'] ==> id == id'
  {
    assert Planted(s.w, f.roots);
    hide Whole;
  }

  // ----- steps that make and drop roots

  lemma DroppedMaps(f: Frame, s: Snap, id: nat, s': Snap)
    requires Whole(f, s) && id in f.roots && s'.w == Cut(s.w, f.roots[id], s'.w.free)
    requires Standing(s.mem, s'.mem, s'.w.free, Total(s.mem, Drop(f, id).roots, Drop(f, id).ids))
    ensures MapsBut(s, s', f.roots[id])
  {
    hide Structured, Standing, Total, Cut, Mapped, EntryPos, Named, Even, WindowsApart, Without;
    forall x | EntryPos(x) && x.root != f.roots[id] ensures Mapped(s'.mem, s'.w, x) == Mapped(s.mem, s.w, x) {
      CutMaps(s.mem, s.last, s.w, f.roots, f.ids, id, s'.mem, s'.w.free, x);
    }
  }

  lemma MadeMaps(s: Snap, s': Snap, ret: nat)
    requires WorldOk(s.mem, s.last, s.w) && Sprouted(s.mem, s.w, s'.mem, s'.w, ret)
    ensures MapsBut(s, s', ret)
  {
    hide WorldOk, Sprouted, Mapped, EntryPos;
    forall x | EntryPos(x) && x.root != ret ensures Mapped(s'.mem, s'.w, x) == Mapped(s.mem, s.w, x) {
      SproutMaps(s.mem, s.last, s.w, s'.mem, s'.w, ret, x);
    }
  }

  /** What a root leads to is under management. */
  lemma VisitedManaged(f: Frame, s: Snap, id: nat)
    requires Whole(f, s) && id in f.roots
    ensures Visited(s.mem, f.roots[id]) <= f.pool
  {
    RootOwed(s.mem, f.roots, f.ids, id);
    hide Structured, Named, WindowsApart, Total, RootVisits;
    forall p | p in Visited(s.mem, f.roots[id]) ensures p in f.pool {
      assert p in RootVisits(s.mem, f.roots[id]);
      assert p in Owed(f, s);
      CountAt(f.base, s.counts, s.lost + Owed(f, s), p);
      PooledAt(s.w.free, s.counts, f.pool, p);
    }
  }

  lemma PoolSame(pool: set<nat>, more: set<nat>)
    requires more <= pool
    ensures pool + more == pool
  {}

  // ----- the kernel's regions stay shared

  lemma KernelGrows(w: World, w': World, current: nat, roots: map<nat, nat>)
    requires KernelOk(w, current) && w'.foreign == w.foreign && (forall p :: p in w.tabs ==> p in w'.tabs)
    requires Planted(w', roots)
    ensures KernelOk(w', current)
  {
    hide At;
  }

  lemma KernelCut(w: World, current: nat, root: nat, free: seq<nat>)
    requires KernelOk(w, current) && current != root
    ensures KernelOk(Cut(w, root, free), current)
  {
    hide Index;
  }

  lemma SharedCut(w: World, shared: set<seq<nat>>, root: nat, free: seq<nat>)
    requires SharedAt(w, shared)
    ensures SharedAt(Cut(w, root, free), shared)
  {}

  lemma SharedMore(w: World, w': World, shared: set<seq<nat>>, ret: nat)
    requires SharedAt(w, shared) && KernelShared(shared) && SharedOnly(w, w', Shares(ret, 5))
    ensures SharedAt(w', shared)
  {
    forall q | q in w'.foreign ensures q.path in shared {
      assert q in w.foreign || q in Shares(ret, 5);
    }
  }

  lemma WholePlanted(f: Frame, s: Snap)
    requires Whole(f, s)
    ensures Planted(s.w, f.roots)
  {
    hide WorldOk, Sealed, WindowsApart, Even, Named;
  }

  /** The range of an operation is the root's own. */
  lemma RangePrivate(f: Frame, s: Snap, shared: set<seq<nat>>, id: nat, address: nat, size: nat)
    requires Whole(f, s) && SharedAt(s.w, shared) && AsidePages(shared, address, size / PAGE)
    ensures id in f.roots ==> PrivatePages(s.w, f.roots[id], address, size / PAGE)
  {
    WholePlanted(f, s);
    hide Whole, SharedAt, AsidePages, PrivatePages;
    if id in f.roots { UnsharedPrivate(s.w, shared, f.roots[id], address, size / PAGE); }
  }

  /** What a run relies on from one operation to the next. */
  ghost predicate Settled(f: Frame, w: World, shared: set<seq<nat>>, own: nat, current: nat) {
    SharedAt(w, shared) && KernelShared(shared) && own in f.roots && f.roots[own] == current && KernelOk(w, current)
  }

  lemma SettledGrows(f: Frame, s: Snap, s': Snap, shared: set<seq<nat>>, own: nat, current: nat)
    requires Settled(f, s.w, shared, own, current) && Whole(f, s')
    requires s'.w.foreign == s.w.foreign && forall p :: p in s.w.tabs ==> p in s'.w.tabs
    ensures Settled(f, s'.w, shared, own, current)
  {
    WholePlanted(f, s');
    hide Whole, KernelOk, KernelShared;
    KernelGrows(s.w, s'.w, current, f.roots);
  }

  lemma SettledMade(f: Frame, w: World, f': Frame, w': World, shared: set<seq<nat>>, own: nat, current: nat, id: nat)
    requires Settled(f, w, shared, own, current) && KernelOk(w', current) && id !in f.roots && id in f'.roots
    requires f'.roots == f.roots[id := f'.roots[id]]
    requires SharedOnly(w, w', Shares(f'.roots[id], 5))
    ensures Settled(f', w', shared, own, current)
  {
    hide KernelOk, SharedAt, SharedOnly, Shares;
    SharedMore(w, w', shared, f'.roots[id]);
  }

  lemma SettledCut(f: Frame, s: Snap, free: seq<nat>, shared: set<seq<nat>>, own: nat, current: nat, id: nat)
    requires Whole(f, s) && Settled(f, s.w, shared, own, current) && id in f.roots && id != own
    ensures Settled(Drop(f, id), Cut(s.w, f.roots[id], free), shared, own, current)
  {
    RootsDiffer(f, s);
    hide Whole, KernelOk, SharedAt, KernelShared, Cut, Without;
    KernelCut(s.w, current, f.roots[id], free);
    SharedCut(s.w, shared, f.roots[id], free);
  }

  lemma SettledShared(f: Frame, w: World, shared: set<seq<nat>>, own: nat, current: nat)
    requires Settled(f, w, shared, own, current)
    ensures SharedAt(w, shared) && KernelOk(w, current)
  {
    hide SharedAt, KernelOk, KernelShared;
  }

  lemma ExtendsTabs(w: World, w': World)
    requires Extends(w, w')
    ensures w'.foreign == w.foreign && forall p :: p in w.tabs ==> p in w'.tabs
  {
    hide Reach;
  }

  /** The list ends behind its last page. */
  lemma ListEnds(m: Memory, last: nat, w: World, n: nat)
    requires WorldOk(m, last, w) && n <= |w.free| && PageOn(w.free, n) == 0
    ensures n == |w.free|
  {
    forall k | 0 <= k < |w.free| ensures w.free[k] != 0 { assert w.free[k] in w.free; }
    hide WorldOk;
  }

  // ----- what becomes of pages

  /**
   * A page under management is on the list exactly if nothing counts for it: no root leads to it, and it is not lost.
   */
  lemma UnusedIff(f: Frame, s: Snap, p: nat)
    requires Whole(f, s)
    ensures p in s.w.free <==> p in f.pool && Count(f.base, p) == 0 && p !in s.lost && p !in Owed(f, s)
    ensures Count(s.counts, p) == Count(f.base, p) + s.lost[p] + Owed(f, s)[p]
  {
    hide Structured, Named, WindowsApart, Owed;
    CountAt(f.base, s.counts, s.lost + Owed(f, s), p);
    PooledAt(s.w.free, s.counts, f.pool, p);
  }

  /** No way from a live root leads to an unused page, through shared tables or others. */
  lemma UnusedUnmet(f: Frame, s: Snap, p: nat, id: nat)
    requires Whole(f, s) && p in s.w.free && id in f.roots
    ensures p !in RootVisits(s.mem, f.roots[id])
  {
    UnusedIff(f, s, p);
    WholeNamed(f, s);
    hide RootVisits, Total, Whole;
    TotalLess(s.mem, f.roots, f.ids, id);
  }

  /** So an unused page holds no table, and no entry of any root leads to it. */
  lemma UnusedUnreachable(f: Frame, s: Snap, p: nat, q: Pos)
    requires Whole(f, s) && p in s.w.free
    ensures p !in s.w.tabs.Values
    ensures Mapped(s.mem, s.w, q).Some? && EntryPos(q) ==> PageOf(Mapped(s.mem, s.w, q).value) != p
    ensures forall id :: id in f.roots ==> p !in RootVisits(s.mem, f.roots[id])
  {
    hide RootVisits;
    forall id | id in f.roots ensures p !in RootVisits(s.mem, f.roots[id]) { UnusedUnmet(f, s, p, id); }
    UnusedIff(f, s, p);
    WholeTables(f, s);
    UnusedNoTable(s.mem, s.last, s.w, p);
    hide Owed, PageOf;
    if Mapped(s.mem, s.w, q).Some? && EntryPos(q) { MappedAmong(f, s, q, Mapped(s.mem, s.w, q).value); }
    hide *;
  }

  lemma UnusedNoTable(m: Memory, last: nat, w: World, p: nat)
    requires WorldOk(m, last, w) && p in w.free
    ensures p !in w.tabs.Values
  {}

  lemma MappedAmong(f: Frame, s: Snap, q: Pos, e: nat)
    requires Whole(f, s) && Mapped(s.mem, s.w, q) == Some(e) && EntryPos(q)
    ensures PageOf(e) in Owed(f, s)
  {
    WholeTables(f, s);
    WholePlanted(f, s);
    WholeNamed(f, s);
    hide Whole, WorldOk, Named, Total, RootVisits, PageOf, Load;
    assert |q.path| == 4 && Up(q) in s.w.tabs && Up(q).path[0] == q.path[0] && Up(q).root == q.root;
    var id :| id in f.roots && f.roots[id] == q.root;
    PageMet(s.mem, s.last, s.w, q, e);
    RootOwed(s.mem, f.roots, f.ids, id);
  }

  // ----- a root's whole life

  /** An operation on one root. */
  predicate OnRoot(op: PageOp, id: nat) {
    !op.MakeRoot? && op.rootId == id
  }

  /** The roots there were owe what they owed; besides them there is at most the root id. */
  ghost predicate OnlyNew(a: Moment, b: Moment, id: nat) {
    && b.f.base == a.f.base && b.f.pool == a.f.pool && id !in a.f.roots && AllOwe(a.s.mem, b.s.mem, a.f.roots)
    && (if id in b.f.roots then b.f.roots == a.f.roots[id := b.f.roots[id]] && b.f.ids == a.f.ids + [id]
        else b.f.roots == a.f.roots && b.f.ids == a.f.ids)
  }

  /**
   * A run that makes a root, works on that root alone, and gives it up: the counts are what they were, but for
   * references that were lost; if none was, the list holds the same pages as before.
   */
  lemma {:induction false} LifeReturns(ops: seq<PageOp>, results: seq<Option<int>>, history: seq<Moment>, id: nat)
    requires IsTrace(ops, results, history) && |ops| > 0 && ops[0].MakeRoot? && results[0] == Some(id)
    requires (forall k :: 1 <= k < |ops| ==> OnRoot(ops[k], id)) && id !in history[|ops|].f.roots
    ensures var a, b := history[0].s, history[|ops|].s;
      && (forall p: nat :: Count(b.counts, p) + a.lost[p] == Count(a.counts, p) + b.lost[p])
      && (b.lost == a.lost ==> multiset(b.w.free) == multiset(a.w.free))
  {
    hide Whole, Effect, AllOwe, Step, OnlyNew, OnRoot;
    assert Step(history[0], ops[0], results[0], history[1]);
    LifeBegins(history[0], results[0], history[1], id);
    for k := 1 to |ops|
      invariant OnlyNew(history[0], history[k], id)
    {
      assert Step(history[k], ops[k], results[k], history[k + 1]) && OnRoot(ops[k], id);
      LifeGoesOn(history[0], history[k], ops[k], results[k], history[k + 1], id);
    }
    LifeEnds(history[0], history[|ops|], id);
  }

  lemma LifeBegins(a: Moment, r: Option<int>, b: Moment, id: nat)
    requires Step(a, MakeRoot, r, b) && r == Some(id)
    ensures OnlyNew(a, b, id)
  {
    hide AllOwe, MapsBut;
  }

  lemma LifeGoesOn(a: Moment, b: Moment, op: PageOp, r: Option<int>, c: Moment, id: nat)
    requires OnlyNew(a, b, id) && Step(b, op, r, c) && OnRoot(op, id) && Whole(b.f, b.s)
    ensures OnlyNew(a, c, id)
  {
    hide Filled, Emptied, Reflagging, Mirroring, MirrorBlocked, RefusedBy, AllOwe, OthersOwe, MapsBut, Whole,
      OthersKept, Without, Named, Count;
    if c != b {
      if id in b.f.roots {
        WholeNamed(b.f, b.s);
        OnlyNewNamed(b.f, a.f.ids, id);
      }
      if c.f == b.f && c.s != b.s { OweOthers(a.s.mem, b.s.mem, c.s.mem, a.f.roots, b.f.roots, id); }
      if c.f != b.f { OweAll(a.s.mem, b.s.mem, c.s.mem, a.f.roots, c.f.roots); }
    }
  }

  lemma OweOthers(m0: Memory, m1: Memory, m: Memory, roots: map<nat, nat>, roots1: map<nat, nat>, id: nat)
    requires AllOwe(m0, m1, roots) && OthersOwe(m1, m, roots1, id) && id !in roots
    requires forall x :: x in roots ==> x in roots1 && roots1[x] == roots[x]
    ensures AllOwe(m0, m, roots)
  {
    hide RootVisits;
  }

  lemma OweAll(m0: Memory, m1: Memory, m: Memory, roots: map<nat, nat>, roots1: map<nat, nat>)
    requires AllOwe(m0, m1, roots) && AllOwe(m1, m, roots1)
    requires forall x :: x in roots ==> x in roots1 && roots1[x] == roots[x]
    ensures AllOwe(m0, m, roots)
  {
    hide RootVisits;
  }

  lemma OnlyNewNamed(f: Frame, ids: seq<nat>, id: nat)
    requires Named(f.roots, f.ids) && f.ids == ids + [id]
    ensures id !in ids && Without(f.ids, id) == ids
  {
    forall k | 0 <= k < |ids| ensures ids[k] != id { assert f.ids[k] == ids[k] && f.ids[|ids|] == id; }
    WithoutLast(ids, id);
  }

  lemma {:induction false} WithoutLast(ids: seq<nat>, id: nat)
    requires id !in ids
    ensures Without(ids + [id], id) == ids
  {
    if ids == [] {
      assert [id][1..] == [];
    } else {
      assert (ids + [id])[1..] == ids[1..] + [id];
      WithoutLast(ids[1..], id);
    }
  }

  lemma LifeEnds(a: Moment, b: Moment, id: nat)
    requires OnlyNew(a, b, id) && id !in b.f.roots && Whole(a.f, a.s) && Whole(b.f, b.s)
    ensures forall p: nat :: Count(b.s.counts, p) + a.s.lost[p] == Count(a.s.counts, p) + b.s.lost[p]
    ensures b.s.lost == a.s.lost ==> multiset(b.s.w.free) == multiset(a.s.w.free)
  {
    TotalEach(a.s.mem, b.s.mem, a.f.roots, a.f.ids);
    assert Owed(b.f, b.s) == Owed(a.f, a.s);
    assert Pooled(a.s.w.free, a.s.counts, a.f.pool) && Pooled(b.s.w.free, b.s.counts, b.f.pool);
    hide Whole, Owed, AllOwe, Count, RootVisits;
    forall p: nat ensures Count(b.s.counts, p) + a.s.lost[p] == Count(a.s.counts, p) + b.s.lost[p] {
      UnusedIff(a.f, a.s, p);
      UnusedIff(b.f, b.s, p);
    }
    if b.s.lost == a.s.lost {
      forall p: nat ensures multiset(b.s.w.free)[p] == multiset(a.s.w.free)[p] {
        assert Count(b.s.counts, p) + a.s.lost[p] == Count(a.s.counts, p) + b.s.lost[p];
      }
    }
  }

  lemma {:induction false} TotalEach(m: Memory, m': Memory, roots: map<nat, nat>, ids: seq<nat>)
    requires AllOwe(m, m', roots)
    ensures Total(m', roots, ids) == Total(m, roots, ids)
  {
    hide RootVisits;
    if ids != [] { TotalEach(m, m', roots, ids[1..]); }
  }
}
