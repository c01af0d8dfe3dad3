/**
 * Runs of the allocator: whatever callers do, the heap behaves as a store of separate byte strings.
 */
module HeapRun {
  import opened BinIndex
  import opened HeapLayout
  import opened HeapTrie
  import opened HeapBins
  import opened HeapEdits
  import opened HeapState
  import opened HeapTake
  import opened HeapCaller
  import H = Heap
  import opened Words

  datatype Op =
    | Alloc(bytes: nat)
    | AllocClear(n: nat, elemSize: nat)
    | Release(r: nat)
    | Resize(r: nat, bytes: nat)
    | Store(r: nat, i: nat, v: nat)

  /** The contents of the blocks handed out, by address; each as long as was requested. */
  type Shadow = map<nat, seq<nat>>

  /** The blocks of l are those of s, large enough and not larger than need be, and hold the bytes of s. */
  ghost predicate Holds(l: Layout, m: Memory, s: Shadow) {
    && (forall r :: r in s ==> r >= 16 && r - 16 in Blocks(l) && |s[r]| <= Usable(l, r - 16))
    && (forall r :: r in s ==> Snug(l, r, |s[r]|))
    && (forall p :: p in Blocks(l) ==> p + 16 in s)
    && (forall r :: r in s ==> BytesAre(m, r, s[r]))
  }

  /** The chunk has less than a minimal chunk more than the padded request. */
  ghost predicate Snug(l: Layout, r: nat, n: nat) {
    r >= 16 && r - 16 in Blocks(l) ==> Blocks(l)[r - 16] < Request2Size(n) + MIN_CHUNK
  }

  ghost predicate BytesAre(m: Memory, r: nat, c: seq<nat>) {
    forall i: nat :: i < |c| ==> BlockByte(m, r, i) == c[i]
  }

  /** The bytes a block holds at the moment. */
  ghost function Snapshot(m: Memory, r: nat, n: nat): (c: seq<nat>)
    ensures |c| == n && BytesAre(m, r, c)
  {
    seq(n, i requires i >= 0 => BlockByte(m, r, i))
  }

  lemma KeptBytes(l: Layout, m: Memory, m': Memory, r: nat, c: seq<nat>)
    requires LayoutOk(l) && r >= 16 && |c| <= Usable(l, r - 16) && BytesAre(m, r, c) && r - 16 in Blocks(l)
    requires forall a :: UserWordOf(l, r - 16, a) ==> Load(m', a) == Load(m, a)
    ensures BytesAre(m', r, c)
  {
    hide Load, UserWordOf, Usable, ByteAt, LayoutOk;
    forall i: nat | i < |c| ensures BlockByte(m', r, i) == c[i] {
      assert BlockByte(m, r, i) == c[i];
      UsableByte(l, r - 16, r, i);
      SameBytes(m, m', r + i);
    }
  }

  /** Words that all blocks keep. */
  lemma OwnWords(l: Layout, m: Memory, m': Memory, p: nat)
    requires UserSame(l, m, m')
    ensures forall a :: UserWordOf(l, p, a) ==> Load(m', a) == Load(m, a)
  {
    forall a | UserWordOf(l, p, a) ensures Load(m', a) == Load(m, a) { assert UserWord(l, a); }
  }

  /** A block that stays, with its words, keeps its bytes. */
  lemma Stays(l: Layout, l': Layout, m: Memory, m': Memory, s: Shadow, r: nat)
    requires LayoutOk(l) && Holds(l, m, s) && r in s && r - 16 in Blocks(l') && Blocks(l')[r - 16] == Blocks(l)[r - 16]
    requires forall a :: UserWordOf(l, r - 16, a) ==> Load(m', a) == Load(m, a)
    ensures |s[r]| <= Usable(l', r - 16) && BytesAre(m', r, s[r]) && Snug(l', r, |s[r]|)
  {
    KeptBytes(l, m, m', r, s[r]);
  }

  lemma Allocates(l: Layout, l': Layout, m: Memory, m': Memory, s: Shadow, r: nat, nb: nat, c: seq<nat>)
    requires (LayoutOk(l) || s == map[]) && Holds(l, m, s) && r >= 16 && Allocated(l, l', r - 16, nb)
    requires UserSame(l, m, m')
    requires |c| + 8 <= nb && nb == Request2Size(|c|) && BytesAre(m', r, c)
    ensures r !in s && Holds(l', m', s[r := c])
  {
    hide LayoutOk, Blocks, UserSame, BytesAre, UserWordOf;
    var s' := s[r := c];
    forall q | q in s'
      ensures q >= 16 && q - 16 in Blocks(l') && |s'[q]| <= Usable(l', q - 16) && BytesAre(m', q, s'[q])
      ensures Snug(l', q, |s'[q]|)
    {
      if q != r {
        OwnWords(l, m, m', q - 16);
        Stays(l, l', m, m', s, q);
      }
    }
  }

  lemma Releases(l: Layout, l': Layout, m: Memory, m': Memory, s: Shadow, r: nat)
    requires LayoutOk(l) && LayoutOk(l') && Holds(l, m, s) && r in s && Blocks(l') == Blocks(l) - {r - 16}
    requires UserSame(l', m, m')
    ensures Holds(l', m', s - {r})
  {
    hide LayoutOk, Blocks, UserSame, BytesAre, UserWordOf;
    var s' := s - {r};
    forall q | q in s'
      ensures q >= 16 && q - 16 in Blocks(l') && |s'[q]| <= Usable(l', q - 16) && BytesAre(m', q, s'[q])
      ensures Snug(l', q, |s'[q]|)
    {
      OwnWords(l', m, m', q - 16);
      KeptBytes(l', m, m', q, s[q]);
    }
  }

  lemma Resizes(l: Layout, l': Layout, m: Memory, m': Memory, s: Shadow, r: nat, r': nat, bytes: nat)
    requires LayoutOk(l) && LayoutOk(l') && Holds(l, m, s) && r in s && Resized(l, l', m, m', r, r', bytes)
    requires bytes < WORD
    ensures r' == r || r' !in s
    ensures var c := Snapshot(m', r', bytes);
      Holds(l', m', (s - {r})[r' := c]) && forall i :: 0 <= i < bytes && i < |s[r]| ==> c[i] == s[r][i]
  {
    var c := Snapshot(m', r', bytes);
    var s' := (s - {r})[r' := c];
    hide LayoutOk, Blocks, BytesAre, UserWordOf, PadRequest;
    RequestSizes(bytes);
    BlockSize(l', r' - 16);
    forall q | q in s'
      ensures q >= 16 && q - 16 in Blocks(l') && |s'[q]| <= Usable(l', q - 16) && BytesAre(m', q, s'[q])
      ensures Snug(l', q, |s'[q]|)
    {
      if q != r' {
        Stays(l, l', m, m', s, q);
      }
    }
    forall i | 0 <= i < bytes && i < |s[r]| ensures c[i] == s[r][i] {
      SameByte(l, m, m', s, r, r', bytes, c, i);
    }
  }

  lemma SameByte(l: Layout, m: Memory, m': Memory, s: Shadow, r: nat, r': nat, bytes: nat, c: seq<nat>, i: nat)
    requires r >= 16 && r in s && BytesAre(m, r, s[r]) && |s[r]| <= Usable(l, r - 16)
    requires BytesMoved(m, m', r, r', Min(Usable(l, r - 16), bytes)) && |c| == bytes && BytesAre(m', r', c)
    requires i < bytes && i < |s[r]|
    ensures c[i] == s[r][i]
  {
    assert BlockByte(m', r', i) == BlockByte(m, r, i);
  }

  ghost function WithAt(c: seq<nat>, i: nat, v: nat): seq<nat>
    requires i < |c|
  {
    c[i := v]
  }

  lemma Stores(l: Layout, m: Memory, s: Shadow, r: nat, i: nat, v: nat)
    requires LayoutOk(l) && Holds(l, m, s) && r in s && i < |s[r]| && v < 256
    ensures Holds(l, PutByte(m, r + i, v), s[r := WithAt(s[r], i, v)]) && CallerWrote(l, m, PutByte(m, r + i, v))
  {
    hide LayoutOk, Blocks, UserWordOf, PutByte, ByteAt, Load, BytesAre, CallerWrote, Usable;
    var m', s' := PutByte(m, r + i, v), s[r := WithAt(s[r], i, v)];
    StoreIsCallers(l, m, r, i, v);
    forall q | q in s' ensures BytesAre(m', q, s'[q]) {
      if q == r { StoredHere(m, r, s[r], i, v); } else { StoredElsewhere(l, m, r, i, v, q, s[q]); }
    }
  }

  lemma StoreIsCallers(l: Layout, m: Memory, r: nat, i: nat, v: nat)
    requires LayoutOk(l) && r >= 16 && r - 16 in Blocks(l) && i < Usable(l, r - 16) && v < 256
    ensures CallerWrote(l, m, PutByte(m, r + i, v))
  {
    ByteStored(m, r + i, v);
    UsableByte(l, r - 16, r, i);
    hide LayoutOk, Blocks, UserWordOf, UserWord, PutByte, ByteAt, Load;
  }

  lemma StoredHere(m: Memory, r: nat, c: seq<nat>, i: nat, v: nat)
    requires BytesAre(m, r, c) && i < |c| && v < 256
    ensures BytesAre(PutByte(m, r + i, v), r, WithAt(c, i, v))
  {
    ByteStored(m, r + i, v);
    hide PutByte, ByteAt, Load;
    forall k: nat | k < |c| ensures BlockByte(PutByte(m, r + i, v), r, k) == WithAt(c, i, v)[k] {
      assert BlockByte(m, r, k) == c[k];
    }
  }

  /** The bytes of another block stay. */
  lemma StoredElsewhere(l: Layout, m: Memory, r: nat, i: nat, v: nat, q: nat, c: seq<nat>)
    requires LayoutOk(l) && r >= 16 && r - 16 in Blocks(l) && i < Usable(l, r - 16) && v < 256
    requires q >= 16 && q != r && q - 16 in Blocks(l) && |c| <= Usable(l, q - 16) && BytesAre(m, q, c)
    ensures BytesAre(PutByte(m, r + i, v), q, c)
  {
    var m', w := PutByte(m, r + i, v), r + i - (r + i) % 8;
    ByteStored(m, r + i, v);
    UsableByte(l, r - 16, r, i);
    hide LayoutOk, Blocks, UserWordOf, PutByte, ByteAt, Load, BytesAre;
    forall a | UserWordOf(l, q - 16, a) ensures Load(m', a) == Load(m, a) {
      if a == w { OneOwner(l, q - 16, r - 16, a); }
    }
    KeptBytes(l, m, m', q, c);
  }

  /** Blocks are aligned and their requested bytes do not overlap. */
  lemma Separate(l: Layout, m: Memory, s: Shadow, r: nat, q: nat)
    requires LayoutOk(l) && Holds(l, m, s) && r in s && q in s && r != q
    ensures r % 16 == 0 && q % 16 == 0
    ensures r + |s[r]| + 8 <= q || q + |s[q]| + 8 <= r
    ensures l.base + 16 <= r && r + |s[r]| <= l.top + 8
  {
    HeldBlock(l, m, s, r);
    HeldBlock(l, m, s, q);
    HeldSize(l, m, s, r);
    HeldSize(l, m, s, q);
    hide Holds, LayoutOk, Blocks, Usable;
    BlocksApart(l, r - 16, q - 16);
    Aligned(r - 16, 16);
    Aligned(q - 16, 16);
  }

  lemma HeldSize(l: Layout, m: Memory, s: Shadow, r: nat)
    requires Holds(l, m, s) && r in s
    ensures r >= 16 && |s[r]| <= Usable(l, r - 16)
  {
    hide BytesAre, Usable, Blocks;
  }

  lemma BlocksApart(l: Layout, p: nat, q: nat)
    requires LayoutOk(l) && p in Blocks(l) && q in Blocks(l) && p != q
    ensures p % 16 == 0 && q % 16 == 0
    ensures p + 16 + Usable(l, p) <= q + 8 || q + 16 + Usable(l, q) <= p + 8
    ensures l.base <= p && p + 16 + Usable(l, p) <= l.top + 8
  {
    BlockSize(l, p);
    BlockSize(l, q);
    ChunksApart(l, p, q);
    hide LayoutOk, Blocks;
  }

  lemma ChunksApart(l: Layout, p: nat, q: nat)
    requires LayoutOk(l) && p in l.chunks && q in l.chunks && p != q
    ensures ChunkOk(l, p) && ChunkOk(l, q)
    ensures p + l.chunks[p].size <= q || q + l.chunks[q].size <= p
  {
    assert ChunkOk(l, p) && ChunkOk(l, q);
    assert p < q ==> Apart(l, p, q);
    assert q < p ==> Apart(l, q, p);
  }

  lemma NothingHeld(l: Layout, m: Memory, s: Shadow)
    requires Holds(l, m, s) && l.chunks == map[]
    ensures s == map[]
  {
    assert forall r :: r in s ==> r - 16 in Blocks(l);
  }

  // ----- what a run has to look like

  /** The block the operation names, if it names one, is held, and sizes and bytes are in range. */
  predicate Proper(held: map<nat, nat>, op: Op) {
    match op
    case Alloc(bytes) => bytes < WORD
    case AllocClear(n, e) => n < WORD && e < WORD
    case Release(r) => r == 0 || r in held
    case Resize(r, bytes) => (r == 0 || r in held) && bytes < WORD
    case Store(r, i, v) => r in held && i < held[r] && v < 256
  }

  ghost function Lengths(s: Shadow): map<nat, nat> {
    map r | r in s :: |s[r]|
  }

  /** The most by which an operation makes the heap grow. */
  function DemandOf(op: Op): nat {
    match op
    case Alloc(bytes) => Demand(bytes)
    case AllocClear(n, e) => Demand(n * e)
    case Release(_) => 0
    case Resize(_, bytes) => Demand(bytes)
    case Store(_, _, _) => 0
  }

  /** What a store of byte strings does for the operation, where the heap answers r. */
  ghost predicate Follows(s: Shadow, op: Op, r: nat, s': Shadow) {
    match op
    case Alloc(bytes) =>
      && (r == 0 <==> bytes >= 0xffff_ffff_ffff_ff80)
      && (if r == 0 then s' == s else r !in s && r in s' && |s'[r]| == bytes && s' == s[r := s'[r]])
    case AllocClear(n, e) =>
      && (r == 0 <==> n * e >= 0xffff_ffff_ffff_ff80)
      && (if r == 0 then s' == s else r !in s && s' == s[r := Zeros(n * e)])
    case Release(q) => r == 0 && s' == s - {q}
    case Resize(q, bytes) =>
      && (r == 0 <==> bytes >= 0xffff_ffff_ffff_ff80)
      && (if r == 0 then s' == s
          else
            && (r == q || r !in s) && r in s' && s' == (s - {q})[r := s'[r]] && |s'[r]| == bytes
            && (q in s ==> forall i :: 0 <= i < bytes && i < |s[q]| ==> s'[r][i] == s[q][i]))
    case Store(q, i, v) => r == 0 && q in s && i < |s[q]| && s' == s[q := WithAt(s[q], i, v)]
  }

  function Zeros(n: nat): (c: seq<nat>)
    ensures |c| == n && forall i :: 0 <= i < n ==> c[i] == 0
  {
    seq(n, _ => 0)
  }

  datatype Outcome = Refused | Done(r: nat)

  /** What is stored at one moment of a run, and how large the heap is. */
  datatype Moment = Moment(store: Shadow, footprint: nat)

  /**
   * One step of a run: improper operations, and those for which the heap would have to grow beyond the arena, are
   * passed over; all others do what they should, and the heap grows by no more than they ask for.
   */
  ghost predicate Step(a: Moment, op: Op, o: Outcome, b: Moment) {
    if Proper(Lengths(a.store), op) && a.footprint + DemandOf(op) <= ARENA
    then o.Done? && Follows(a.store, op, o.r, b.store) && a.footprint <= b.footprint <= a.footprint + DemandOf(op)
    else o.Refused? && b == a
  }

  ghost predicate IsRun(ops: seq<Op>, outcomes: seq<Outcome>, history: seq<Moment>) {
    && |outcomes| == |ops| && |history| == |ops| + 1
    && (forall k :: 0 <= k < |ops| ==> Step(history[k], ops[k], outcomes[k], history[k + 1]))
    && (forall k :: 0 <= k < |history| ==> history[k].footprint <= 0x100_0000_0000)
  }

  /**
   * A step is refused only for what it asks: a block that is not held, sizes, positions and bytes out of range, or a
   * request that with padding, the foot of top and a page more does not fit into what is left of 2^40 bytes.
   */
  lemma RefusedOnly(ops: seq<Op>, outcomes: seq<Outcome>, history: seq<Moment>, k: nat)
    requires IsRun(ops, outcomes, history) && k < |ops| && outcomes[k].Refused?
    ensures history[k + 1] == history[k]
    ensures var s, size := history[k].store, history[k].footprint;
      match ops[k]
      case Alloc(bytes) => bytes >= 0x1_0000_0000_0000_0000 || TooMuch(bytes, size)
      case AllocClear(n, e) =>
        n >= 0x1_0000_0000_0000_0000 || e >= 0x1_0000_0000_0000_0000 || TooMuch(n * e, size)
      case Release(r) => r != 0 && r !in s
      case Resize(r, bytes) => (r != 0 && r !in s) || bytes >= 0x1_0000_0000_0000_0000 || TooMuch(bytes, size)
      case Store(r, i, v) => r !in s || |s[r]| <= i || 256 <= v
  {
    hide Proper, DemandOf, Follows;
    assert Step(history[k], ops[k], outcomes[k], history[k + 1]);
    hide Step, IsRun;
    ImproperOrMuch(history[k].store, history[k].footprint, ops[k]);
  }

  lemma ImproperOrMuch(s: Shadow, size: nat, op: Op)
    requires size <= 0x100_0000_0000 && (!Proper(Lengths(s), op) || size + DemandOf(op) > ARENA)
    ensures match op
      case Alloc(bytes) => bytes >= 0x1_0000_0000_0000_0000 || TooMuch(bytes, size)
      case AllocClear(n, e) =>
        n >= 0x1_0000_0000_0000_0000 || e >= 0x1_0000_0000_0000_0000 || TooMuch(n * e, size)
      case Release(r) => r != 0 && r !in s
      case Resize(r, bytes) => (r != 0 && r !in s) || bytes >= 0x1_0000_0000_0000_0000 || TooMuch(bytes, size)
      case Store(r, i, v) => r !in s || |s[r]| <= i || 256 <= v
  {
    hide Demand;
    match op
    case Alloc(bytes) => DemandSmall(bytes);
    case AllocClear(n, e) => DemandSmall(n * e);
    case Resize(_, bytes) => DemandSmall(bytes);
    case Release(_) =>
    case Store(_, _, _) =>
  }

  predicate TooMuch(bytes: nat, footprint: nat) {
    bytes < 0xffff_ffff_ffff_ff80 && footprint + bytes + (24 + 8) + 96 + 4096 > 0x100_0000_0000
  }

  lemma DemandSmall(bytes: nat)
    ensures if bytes < 0xffff_ffff_ffff_ff80 then Demand(bytes) < bytes + (24 + 8) + 96 + 4096 else Demand(bytes) == 0
  {
    if bytes < MAX_REQUEST {
      RequestSizes(bytes);
      PageSize(Request2Size(bytes) + 96);
      hide Request2Size, GranularityAlign;
    }
  }

  /** No operation names the block at r. */
  predicate Untouched(ops: seq<Op>, r: nat) {
    forall k :: 0 <= k < |ops| ==> !Names(ops[k], r)
  }

  predicate Names(op: Op, r: nat) {
    match op
    case Alloc(_) => false
    case AllocClear(_, _) => false
    case Release(q) => q == r
    case Resize(q, _) => q == r
    case Store(q, _, _) => q == r
  }

  /** A block that no operation of a run names is there at the end with its contents. */
  lemma {:induction false} UntouchedStays(ops: seq<Op>, outcomes: seq<Outcome>, history: seq<Moment>, r: nat)
    requires IsRun(ops, outcomes, history) && Untouched(ops, r) && r in history[0].store
    ensures r in history[|ops|].store && history[|ops|].store[r] == history[0].store[r]
  {
    for k := 0 to |ops|
      invariant r in history[k].store && history[k].store[r] == history[0].store[r]
    {
      assert Step(history[k], ops[k], outcomes[k], history[k + 1]);
      assert !Names(ops[k], r);
    }
  }

  /** The heap and its callers, who know what they hold; shadow is what they believe to be stored. */
  class Session {
    const heap: H.Heap
    var held: map<nat, nat>
    ghost var shadow: Shadow

    ghost predicate Agrees()
      reads this, heap
    {
      && heap.Valid() && Holds(heap.l, heap.mem, shadow)
      && held.Keys == shadow.Keys && forall r :: r in held ==> held[r] == |shadow[r]|
    }

    constructor (start: nat, memory: Memory)
      requires start % 4096 == 0 && STATIC_END <= start && start + ARENA < WORD
      requires forall b :: 0 <= b < NTREEBINS ==> Get(memory, Root(b)) == 0
      ensures Agrees() && fresh(heap) && shadow == map[]
    {
      heap := new H.Heap(start, memory);
      held := map[];
      shadow := map[];
    }

    ghost function Now(): Moment
      reads this, heap
    {
      Moment(shadow, heap.footprint)
    }

    lemma BelowArena()
      requires Agrees()
      ensures heap.footprint <= 0x100_0000_0000
    {
      hide Holds, TagsOk, BinsOk;
    }

    /** What the request makes the heap grow by fits into the arena. */
    ghost predicate Room(bytes: nat)
      reads heap
    {
      bytes >= MAX_REQUEST || heap.footprint + Growth(heap.l, heap.topsize, Request2Size(bytes)) <= ARENA
    }

    /** Where the most a request could need is there, there is room for it. */
    lemma RoomEnough(bytes: nat)
      requires heap.footprint + Demand(bytes) <= ARENA
      ensures Room(bytes)
    {
      if bytes < MAX_REQUEST { GrowthBound(heap.l, heap.topsize, bytes); }
    }

    method Alloc(bytes: nat) returns (r: nat)
      requires Agrees() && bytes < WORD && Room(bytes)
      modifies this, heap
      ensures Agrees() && Follows(old(shadow), Op.Alloc(bytes), r, shadow)
      ensures old(heap.footprint) <= heap.footprint <= old(heap.footprint) + Demand(bytes)
    {
      hide BinsOk, TagsOk, NoAdjacentFree, Policy, NoFit, UserSame, Blocks, Binnable, DvOk, GranularityAlign, Get,
        Holds, LayoutOk, PadRequest, Allocated;
      ghost var l, m := heap.l, heap.mem;
      r := heap.Malloc(bytes);
      if r != 0 {
        RequestSizes(bytes);
        ghost var c := Snapshot(heap.mem, r, bytes);
        if l.chunks == map[] { NothingHeld(l, m, shadow); }
        Allocates(l, heap.l, m, heap.mem, shadow, r, Request2Size(bytes), c);
        shadow := shadow[r := c];
        held := held[r := bytes];
      }
    }

    method AllocClear(n: nat, elemSize: nat) returns (r: nat)
      requires Agrees() && n < WORD && elemSize < WORD && Room(n * elemSize)
      modifies this, heap
      ensures Agrees() && Follows(old(shadow), Op.AllocClear(n, elemSize), r, shadow)
      ensures old(heap.footprint) <= heap.footprint <= old(heap.footprint) + DemandOf(Op.AllocClear(n, elemSize))
    {
      hide BinsOk, TagsOk, NoAdjacentFree, Policy, NoFit, UserSame, Blocks, Binnable, DvOk, GranularityAlign, Get,
        Holds, LayoutOk, PadRequest, BlockByte, Allocated;
      ghost var l, m := heap.l, heap.mem;
      r := heap.Calloc(n, elemSize);
      if r != 0 {
        RequestSizes(n * elemSize);
        ghost var c := Zeros(n * elemSize);
        if l.chunks == map[] { NothingHeld(l, m, shadow); }
        Allocates(l, heap.l, m, heap.mem, shadow, r, Request2Size(n * elemSize), c);
        shadow := shadow[r := c];
        held := held[r := n * elemSize];
      }
    }

    method Release(r: nat)
      requires Agrees() && (r == 0 || r in shadow)
      modifies this, heap
      ensures Agrees() && shadow == old(shadow) - {r} && heap.footprint == old(heap.footprint)
    {
      hide BinsOk, TagsOk, NoAdjacentFree, Policy, NoFit, UserSame, Blocks, Binnable, DvOk, GranularityAlign, Get,
        Holds, LayoutOk, BytesAre;
      ghost var l, m := heap.l, heap.mem;
      if r == 0 { NullNotHeld(l, m, shadow); } else { HeldBlock(l, m, shadow, r); }
      heap.Free(r);
      if r != 0 {
        ReleasedSets(l, heap.l, m, heap.mem, shadow, r);
        shadow := shadow - {r};
        held := held - {r};
      }
    }

    method Resize(r: nat, bytes: nat) returns (r': nat)
      requires Agrees() && (r == 0 || r in shadow) && bytes < WORD && (heap.InPlace(r, bytes) || Room(bytes))
      modifies this, heap
      ensures Agrees() && Follows(old(shadow), Op.Resize(r, bytes), r', shadow)
      ensures old(heap.footprint) <= heap.footprint <= old(heap.footprint) + Demand(bytes)
    {
      hide BinsOk, TagsOk, NoAdjacentFree, Policy, NoFit, UserSame, Blocks, Binnable, DvOk, GranularityAlign, Get,
        Holds, LayoutOk, BytesAre, PadRequest, Resized, Allocated;
      ghost var l, m := heap.l, heap.mem;
      RequestSizes(bytes);
      if r == 0 { NullNotHeld(l, m, shadow); } else { HeldBlock(l, m, shadow, r); }
      r' := heap.Realloc(r, bytes);
      if r' != 0 {
        ghost var c := Snapshot(heap.mem, r', bytes);
        if l.chunks == map[] { NothingHeld(l, m, shadow); }
        if r == 0 {
          Allocates(l, heap.l, m, heap.mem, shadow, r', Request2Size(bytes), c);
        } else {
          Resizes(l, heap.l, m, heap.mem, shadow, r, r', bytes);
        }
        shadow := (shadow - {r})[r' := c];
        held := (held - {r})[r' := bytes];
      }
    }

    /** A caller writes byte i of its block. */
    method Store(r: nat, i: nat, v: nat)
      requires Agrees() && r in shadow && i < |shadow[r]| && v < 256
      modifies this, heap
      ensures Agrees() && shadow == old(shadow)[r := WithAt(old(shadow)[r], i, v)]
      ensures heap.footprint == old(heap.footprint)
    {
      hide BinsOk, TagsOk, NoAdjacentFree, Policy, NoFit, UserSame, Blocks, Binnable, DvOk, GranularityAlign, Get,
        Holds, LayoutOk, CallerWrote;
      ghost var l, m := heap.l, heap.mem;
      if l.chunks == map[] { NothingHeld(l, m, shadow); }
      Stores(l, m, shadow, r, i, v);
      heap.mem := PutByte(heap.mem, r + i, v);
      CallerKeeps(l, m, heap.mem, heap.smallmap, heap.treemap, heap.z);
      shadow := shadow[r := WithAt(shadow[r], i, v)];
    }

    method Perform(op: Op) returns (r: nat)
      requires Agrees() && Proper(held, op) && heap.footprint + DemandOf(op) <= ARENA
      modifies this, heap
      ensures Agrees() && Follows(old(shadow), op, r, shadow)
      ensures old(heap.footprint) <= heap.footprint <= old(heap.footprint) + DemandOf(op)
    {
      hide Holds, WithAt, Demand, Zeros;
      r := 0;
      match op {
        case Alloc(bytes) => RoomEnough(bytes); r := Alloc(bytes);
        case AllocClear(n, e) => RoomEnough(n * e); r := AllocClear(n, e);
        case Release(q) => Release(q);
        case Resize(q, bytes) => RoomEnough(bytes); r := Resize(q, bytes);
        case Store(q, i, v) => Store(q, i, v);
      }
    }

    /** Performs an operation if it is proper and there is room for it. */
    method Attempt(op: Op) returns (o: Outcome)
      requires Agrees()
      modifies this, heap
      ensures Agrees() && Step(old(Now()), op, o, Now())
    {
      hide Holds, Proper, Follows, DemandOf;
      assert held == Lengths(shadow);
      o := Refused;
      if Proper(held, op) && heap.footprint + DemandOf(op) <= ARENA {
        var r := Perform(op);
        o := Done(r);
      }
    }

    /**
     * Performs a sequence of operations, refusing those that name a block not held, are out of range or find no
     * room. Every other operation does what a store of separate byte strings does.
     */
    method Run(ops: seq<Op>) returns (outcomes: seq<Outcome>, ghost history: seq<Moment>)
      requires Agrees()
      modifies this, heap
      ensures Agrees() && IsRun(ops, outcomes, history) && history[0] == old(Now()) && history[|ops|] == Now()
    {
      hide Holds, Step, Agrees;
      BelowArena();
      outcomes, history := [], [Now()];
      for k := 0 to |ops|
        invariant Agrees() && |history| == k + 1 && |outcomes| == k && history[0] == old(Now()) && history[k] == Now()
        invariant forall j :: 0 <= j < k ==> Step(history[j], ops[j], outcomes[j], history[j + 1])
        invariant forall j :: 0 <= j <= k ==> history[j].footprint <= 0x100_0000_0000
      {
        var o := Attempt(ops[k]);
        BelowArena();
        outcomes := outcomes + [o];
        history := history + [Now()];
      }
    }
  }

  lemma HeldBlock(l: Layout, m: Memory, s: Shadow, r: nat)
    requires Holds(l, m, s) && r in s
    ensures r >= 16 && r - 16 in Blocks(l) && l.chunks != map[]
  {
    hide BytesAre, Usable;
  }

  lemma NullNotHeld(l: Layout, m: Memory, s: Shadow)
    requires Holds(l, m, s)
    ensures 0 !in s && s - {0} == s
  {
    hide BytesAre, Usable, Blocks;
    assert 0 !in s;
  }

  lemma ReleasedSets(l: Layout, l': Layout, m: Memory, m': Memory, s: Shadow, r: nat)
    requires LayoutOk(l) && Holds(l, m, s) && r in s && r >= 16 && Blocks(l') == Blocks(l) - {r - 16}
    requires UserSame(l', m, m')
    requires LayoutOk(l')
    ensures Holds(l', m', s - {r})
  {
    Releases(l, l', m, m', s, r);
  }
}
