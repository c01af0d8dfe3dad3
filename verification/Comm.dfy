/**
 * The framed ring buffer between tasks: length-prefixed packets in a circular byte area. Every operation is
 * one step here.
 */
module Comm {
  import Words

  type byte = x: int | 0 <= x < 256

  /** The byte area starts behind seven words. */
  const DATA_BEGIN: nat := 56
  const WORD32: nat := 0x1_0000_0000

  type Packet = seq<byte>

  // ----- positions and slices of the area

  /** Position x of an area of n bytes, taken around at most once. */
  function Wrap(x: nat, n: nat): (r: nat)
    requires x < 2 * n
    ensures r < n
  {
    if x < n then x else x - n
  }

  /** len bytes from position b on, around the end. */
  ghost function Slice(a: seq<byte>, b: nat, len: nat): (s: seq<byte>)
    requires b < |a| && len <= |a|
    ensures |s| == len
  {
    seq(len, i requires 0 <= i < len => a[Wrap(b + i, |a|)])
  }

  /** d has been written at position at, around the end, and nothing else. */
  ghost predicate Written(a: seq<byte>, a': seq<byte>, at: nat, d: seq<byte>) {
    && |a'| == |a| && at < |a| && |d| <= |a|
    && (forall i :: 0 <= i < |d| ==> a'[Wrap(at + i, |a|)] == d[i])
    && (forall k :: 0 <= k < |a| && Free(at, |d|, |a|, k) ==> a'[k] == a[k])
  }

  /** k is none of the len positions from at on. */
  predicate Free(at: nat, len: nat, n: nat, k: nat) {
    if at + len <= n then k < at || at + len <= k else at + len - n <= k < at
  }

  /** Writing behind a slice extends it, as long as it does not come around. */
  lemma SliceGrows(a: seq<byte>, a': seq<byte>, b: nat, len: nat, d: seq<byte>)
    requires b < |a| && len + |d| <= |a| && Written(a, a', Wrap(b + len, |a|), d)
    ensures Slice(a', b, len + |d|) == Slice(a, b, len) + d
  {
    var n, at := |a|, Wrap(b + len, |a|);
    forall i | 0 <= i < len + |d| ensures Slice(a', b, len + |d|)[i] == (Slice(a, b, len) + d)[i] {
      if i < len {
        assert Free(at, |d|, n, Wrap(b + i, n));
      } else {
        assert Wrap(at + (i - len), n) == Wrap(b + i, n);
      }
    }
  }

  /** The rest of a slice. */
  lemma SliceRest(a: seq<byte>, b: nat, len: nat, k: nat)
    requires b < |a| && k <= len <= |a|
    ensures Slice(a, b, len)[..k] == Slice(a, b, k)
    ensures Slice(a, b, len)[k..] == Slice(a, Wrap(b + k, |a|), len - k)
  {
    forall i | 0 <= i < len - k ensures Slice(a, b, len)[k..][i] == Slice(a, Wrap(b + k, |a|), len - k)[i] {
      assert Slice(a, b, len)[k..][i] == Slice(a, b, len)[k + i];
      assert Wrap(Wrap(b + k, |a|) + i, |a|) == Wrap(b + (k + i), |a|);
    }
  }

  lemma SliceAt(a: seq<byte>, b: nat, n: nat, i: nat)
    requires b < |a| && n <= |a| && i < n
    ensures Slice(a, b, n)[i] == a[Wrap(b + i, |a|)]
  {}

  lemma SlicePieces(a: seq<byte>, b: nat, n: nat)
    requires b < |a| && n <= |a|
    ensures Slice(a, b, n) == if b + n >= |a| then a[b..] + a[..n - (|a| - b)] else a[b..b + n]
  {
    var s := if b + n >= |a| then a[b..] + a[..n - (|a| - b)] else a[b..b + n];
    forall i | 0 <= i < n ensures Slice(a, b, n)[i] == s[i] { SliceAt(a, b, n, i); }
  }

  // ----- frames

  /** The four bytes of a length, low byte first, cut to 32 bits. */
  function LengthBytes(n: nat): (d: seq<byte>)
    ensures |d| == 4
  {
    [n % 256, n / 0x100 % 256, n / 0x1_0000 % 256, n / 0x100_0000 % 256]
  }

  function LengthOf(d: seq<byte>): nat
    requires |d| == 4
  {
    d[0] as nat + 0x100 * d[1] as nat + 0x1_0000 * d[2] as nat + 0x100_0000 * d[3] as nat
  }

  lemma LengthRead(n: nat)
    ensures LengthOf(LengthBytes(n)) == n % WORD32
  {
    var a, b, c := n / 0x100, n / 0x1_0000, n / 0x100_0000;
    assert b == a / 256 && c == b / 256;
    assert n == 0x100_0000 * c + 0x1_0000 * (b % 256) + 0x100 * (a % 256) + n % 256;
    assert c == 256 * (c / 256) + c % 256;
  }

  lemma LengthKept(n: nat)
    requires n < WORD32
    ensures LengthOf(LengthBytes(n)) == n
  {
    LengthRead(n);
  }

  function Frame(p: Packet): seq<byte> {
    LengthBytes(|p|) + p
  }

  /** All frames one behind the other. */
  function Stream(q: seq<Packet>): seq<byte> {
    if q == [] then [] else Frame(q[0]) + Stream(q[1..])
  }

  /** The bytes the packets take. */
  function Size(q: seq<Packet>): (n: nat)
    ensures n == |Stream(q)|
  {
    |Stream(q)|
  }

  lemma {:induction false} StreamAppend(q: seq<Packet>, p: Packet)
    ensures Stream(q + [p]) == Stream(q) + Frame(p)
    ensures Size(q + [p]) == Size(q) + |p| + 4
  {
    if q == [] {
      assert Stream([p]) == Frame(p) + Stream([]);
    } else {
      assert (q + [p])[1..] == q[1..] + [p] && (q + [p])[0] == q[0];
      StreamAppend(q[1..], p);
    }
  }

  /** Writing the length and then the packet extends the stream by a frame. */
  lemma PutSlices(a0: seq<byte>, a1: seq<byte>, a2: seq<byte>, b: nat, q: seq<Packet>, p: Packet)
    requires b < |a0| && Size(q) + 4 + |p| <= |a0| && Slice(a0, b, Size(q)) == Stream(q)
    requires Written(a0, a1, Wrap(b + Size(q), |a0|), LengthBytes(|p|))
    requires Written(a1, a2, Wrap(b + Size(q) + 4, |a0|), p)
    ensures Slice(a2, b, Size(q) + 4 + |p|) == Stream(q) + Frame(p)
  {
    WrittenLength(a0, a1, Wrap(b + Size(q), |a0|), LengthBytes(|p|));
    FrameIs(Stream(q), p);
    hide *;
    SliceGrows(a0, a1, b, Size(q), LengthBytes(|p|));
    SliceGrows(a1, a2, b, Size(q) + 4, p);
  }

  lemma FrameIs(s: seq<byte>, p: Packet)
    ensures s + Frame(p) == s + LengthBytes(|p|) + p
  {
    hide LengthBytes;
  }

  lemma WrittenLength(a: seq<byte>, a': seq<byte>, at: nat, d: seq<byte>)
    requires Written(a, a', at, d)
    ensures |a'| == |a|
  {}

  /** The first frame of a stream that lies around the area, and the rest behind it. */
  lemma HeadFrame(a: seq<byte>, b: nat, q: seq<Packet>)
    requires q != [] && b < |a| && Size(q) <= |a| && Slice(a, b, Size(q)) == Stream(q) && |q[0]| < WORD32
    ensures Size(q) == 4 + |q[0]| + Size(q[1..])
    ensures LengthOf(Slice(a, b, 4)) == |q[0]|
    ensures Slice(a, Wrap(b + 4, |a|), |q[0]|) == q[0]
    ensures Slice(a, Wrap(Wrap(b + 4, |a|) + |q[0]|, |a|), Size(q[1..])) == Stream(q[1..])
  {
    hide *;
    StreamHead(q);
    HeadSlices(a, b, q);
    LengthKept(|q[0]|);
    TailFrame(a, Wrap(b + 4, |a|), q[0], Stream(q[1..]));
  }

  lemma HeadSlices(a: seq<byte>, b: nat, q: seq<Packet>)
    requires q != [] && b < |a| && Size(q) <= |a| && Slice(a, b, Size(q)) == Stream(q) && Size(q) >= 4
    ensures Slice(a, b, 4) == Stream(q)[..4]
    ensures Slice(a, Wrap(b + 4, |a|), Size(q) - 4) == Stream(q)[4..]
  {
    hide *;
    SliceRest(a, b, Size(q), 4);
  }

  lemma StreamHead(q: seq<Packet>)
    requires q != []
    ensures Size(q) == 4 + |q[0]| + Size(q[1..])
    ensures Stream(q)[..4] == LengthBytes(|q[0]|) && Stream(q)[4..] == q[0] + Stream(q[1..])
  {
    var s := q[0] + Stream(q[1..]);
    assert Stream(q) == LengthBytes(|q[0]|) + s by { FrameRest(q[0], Stream(q[1..])); }
    hide Stream, LengthBytes;
    assert (LengthBytes(|q[0]|) + s)[..4] == LengthBytes(|q[0]|) && (LengthBytes(|q[0]|) + s)[4..] == s;
  }

  lemma FrameRest(p: Packet, rest: seq<byte>)
    ensures Frame(p) + rest == LengthBytes(|p|) + (p + rest)
  {
    hide LengthBytes;
  }

  lemma TailFrame(a: seq<byte>, b: nat, p: Packet, rest: seq<byte>)
    requires b < |a| && |p| + |rest| <= |a| && Slice(a, b, |p| + |rest|) == p + rest
    ensures Slice(a, b, |p|) == p && Slice(a, Wrap(b + |p|, |a|), |rest|) == rest
  {
    SliceRest(a, b, |p| + |rest|, |p|);
    hide Slice, Wrap;
    assert (p + rest)[..|p|] == p && (p + rest)[|p|..] == rest;
  }

  /** A length and a packet have been written at position at. */
  ghost predicate FrameWritten(a: seq<byte>, a': seq<byte>, at: nat, p: Packet) {
    && at < |a| && |p| + 4 <= |a|
    && exists a1 :: Written(a, a1, at, LengthBytes(|p|)) && Written(a1, a', Wrap(at + 4, |a|), p)
  }

  lemma FrameSlices(a: seq<byte>, a': seq<byte>, b: nat, q: seq<Packet>, p: Packet)
    requires b < |a| && Size(q) + 4 + |p| <= |a| && Slice(a, b, Size(q)) == Stream(q)
    requires FrameWritten(a, a', Wrap(b + Size(q), |a|), p) && |a'| == |a|
    ensures Slice(a', b, Size(q) + 4 + |p|) == Stream(q) + Frame(p)
  {
    hide Slice, Stream, LengthBytes, Written, Frame;
    var at := Wrap(b + Size(q), |a|);
    var a1 :| Written(a, a1, at, LengthBytes(|p|)) && Written(a1, a', Wrap(at + 4, |a|), p);
    assert Wrap(at + 4, |a|) == Wrap(b + Size(q) + 4, |a|);
    hide *;
    PutSlices(a, a1, a', b, q, p);
  }

  // ----- the reference: a queue of packets with a bound on its size

  datatype Op = Put(p: Packet) | Peek(size: nat)

  datatype Out = Stored | NoRoom | NoPacket | Got(p: Packet)

  function Fifo(q: seq<Packet>, op: Op, n: nat): (x: (seq<Packet>, Out)) {
    match op
    case Put(p) => if Size(q) + |p| + 4 <= n then (q + [p], Stored) else (q, NoRoom)
    case Peek(_) => if q == [] then (q, NoPacket) else (q[1..], Got(q[0]))
  }

  function FifoRun(q: seq<Packet>, ops: seq<Op>, n: nat): seq<Out>
    decreases |ops|
  {
    if ops == [] then [] else [Fifo(q, ops[0], n).1] + FifoRun(Fifo(q, ops[0], n).0, ops[1..], n)
  }

  function AfterRun(q: seq<Packet>, ops: seq<Op>, n: nat): seq<Packet>
    decreases |ops|
  {
    if ops == [] then q else AfterRun(Fifo(q, ops[0], n).0, ops[1..], n)
  }

  /**
   * The ring answers as the queue does: nothing is put into a full ring that would fit an empty one, and no
   * packet is fetched into too small a buffer.
   */
  predicate Fair(q: seq<Packet>, op: Op, n: nat) {
    match op
    case Put(p) => Size(q) != n || |p| + 4 > n
    case Peek(size) => q == [] || |q[0]| <= size
  }

  predicate FairRun(q: seq<Packet>, ops: seq<Op>, n: nat)
    decreases |ops|
  {
    ops == [] || (Fair(q, ops[0], n) && FairRun(Fifo(q, ops[0], n).0, ops[1..], n))
  }

  /** All operations but the last are fair. */
  predicate FairBefore(q: seq<Packet>, ops: seq<Op>, n: nat)
    decreases |ops|
  {
    |ops| <= 1 || (Fair(q, ops[0], n) && FairBefore(Fifo(q, ops[0], n).0, ops[1..], n))
  }

  /** The length of a packet that is stored fits its four bytes. */
  predicate Short(op: Op, n: nat) {
    op.Put? ==> |op.p| < WORD32 || |op.p| + 4 > n
  }

  // ----- packets of one size

  predicate AllSized(q: seq<Packet>, s: nat) {
    forall k :: 0 <= k < |q| ==> |q[k]| == s
  }

  predicate SizedOp(op: Op, s: nat) {
    match op case Put(p) => |p| == s case Peek(size) => s <= size
  }

  lemma {:induction false} SizedStream(q: seq<Packet>, s: nat)
    requires AllSized(q, s)
    ensures Size(q) == |q| * (s + 4)
  {
    if q != [] {
      SizedStream(q[1..], s);
      assert |q| * (s + 4) == (|q| - 1) * (s + 4) + (s + 4);
    }
  }

  lemma NotMultiple(k: nat, d: nat, n: nat)
    requires d > 0 && n % d != 0
    ensures k * d != n
  {
    if k * d == n { Words.Remainder(n, d, k, 0); }
  }

  /** With packets of one size whose frames do not divide the area, every run is fair. */
  lemma {:induction false} SizedIsFair(q: seq<Packet>, ops: seq<Op>, s: nat, n: nat)
    requires AllSized(q, s) && n % (s + 4) != 0
    requires forall op :: op in ops ==> SizedOp(op, s)
    ensures FairRun(q, ops, n)
    decreases |ops|
  {
    if ops != [] {
      var op, q' := ops[0], Fifo(q, ops[0], n).0;
      assert SizedOp(op, s);
      SizedStream(q, s);
      NotMultiple(|q|, s + 4, n);
      assert Fair(q, op, n);
      assert AllSized(q', s) by {
        forall k | 0 <= k < |q'| ensures |q'[k]| == s {
          if op.Peek? && q != [] { assert q'[k] == q[k + 1]; }
        }
      }
      SizedIsFair(q', ops[1..], s, n);
    }
  }

  function Puts(ps: seq<Packet>): (ops: seq<Op>)
    ensures |ops| == |ps|
  {
    if ps == [] then [] else [Put(ps[0])] + Puts(ps[1..])
  }

  /** Packets that fill the ring exactly make it take one packet too many. */
  lemma {:induction false} FillingIsUnfair(q: seq<Packet>, ps: seq<Packet>, p: Packet, n: nat)
    requires Size(q) + Size(ps) == n && |p| + 4 <= n
    ensures !FairRun(q, Puts(ps) + [Put(p)], n)
    decreases |ps|
  {
    var ops := Puts(ps) + [Put(p)];
    if ps != [] {
      hide Stream;
      StreamHead(ps);
      StreamAppend(q, ps[0]);
      assert ops[1..] == Puts(ps[1..]) + [Put(p)];
      FillingIsUnfair(q + [ps[0]], ps[1..], p, n);
    }
  }

  /** So packets of one size whose frames divide the area do not make every run fair. */
  lemma DividingIsUnfair(p: Packet, n: nat)
    requires n > 0 && n % (|p| + 4) == 0
    ensures exists ops {:trigger FairRun([], ops, n)} ::
      (forall op :: op in ops ==> op == Put(p)) && !FairRun([], ops, n)
  {
    Divided(n, |p| + 4);
    var ps := seq(n / (|p| + 4), _ => p);
    SizedStream(ps, |p|);
    FillingIsUnfair([], ps, p, n);
    SamePuts(ps, p);
    hide *;
    assert forall op :: op in Puts(ps) + [Put(p)] ==> op == Put(p);
  }

  lemma Divided(n: nat, d: nat)
    requires n > 0 && d > 0 && n % d == 0
    ensures n / d * d == n && d <= n
  {}

  lemma {:induction false} SamePuts(ps: seq<Packet>, p: Packet)
    requires forall k :: 0 <= k < |ps| ==> ps[k] == p
    ensures forall op :: op in Puts(ps) ==> op == Put(p)
  {
    if ps != [] { SamePuts(ps[1..], p); }
  }

  /**
   * The rings between the scheduler and a task: 2048 bytes, 1992 of them data; packets of 56 bytes one way and 40 the
   * other.
   */
  lemma SchedulerRings(q: seq<Packet>, ops: seq<Op>, s: nat)
    requires s == 56 || s == 40
    requires AllSized(q, s) && forall op :: op in ops ==> SizedOp(op, s)
    ensures FairRun(q, ops, 1992)
  {
    SizedIsFair(q, ops, s, 2048 - DATA_BEGIN);
  }

  // ----- the ring

  class Ring {
    var area: array<byte>
    var ringBegin: nat
    var ringEnd: nat
    var packetCount: nat

    ghost var packets: seq<Packet>

    predicate Placed()
      reads this
    {
      ringBegin < area.Length && ringEnd < area.Length
    }

    /** The ring holds exactly these packets. */
    ghost predicate Valid()
      reads this, area
    {
      && Placed() && packetCount == |packets| && Size(packets) <= area.Length
      && ringEnd == Wrap(ringBegin + Size(packets), area.Length)
      && Slice(area[..], ringBegin, Size(packets)) == Stream(packets)
      && (forall k :: 0 <= k < |packets| ==> |packets[k]| < WORD32)
    }

    /** No byte of the area is unused; the positions look like those of an empty ring. */
    ghost predicate Full()
      reads this
    {
      Size(packets) == area.Length
    }

    constructor (length: nat, init: byte)
      requires length > DATA_BEGIN
      ensures Valid() && fresh(area) && area.Length == length - 56 && packets == [] && ringBegin == 0
    {
      area := new byte[length - DATA_BEGIN](_ => init);
      ringBegin, ringEnd, packetCount := 0, 0, 0;
      packets := [];
    }

    method Remaining() returns (n: nat)
      requires Valid()
      ensures n == if Full() then area.Length else area.Length - Size(packets)
    {
      hide Stream, Slice;
      if ringBegin <= ringEnd {
        var used := ringEnd - ringBegin;
        n := area.Length - used;
      } else {
        n := ringBegin - ringEnd;
      }
    }

    method CopyIn(at: nat, d: seq<byte>)
      requires at + |d| <= area.Length
      modifies area
      ensures forall k :: 0 <= k < area.Length ==> area[k] == if at <= k < at + |d| then d[k - at] else old(area[k])
    {
      for i := 0 to |d|
        invariant forall k :: 0 <= k < area.Length ==> area[k] == if at <= k < at + i then d[k - at] else old(area[k])
      {
        area[at + i] := d[i];
      }
    }

    method CopyOut(at: nat, n: nat) returns (d: seq<byte>)
      requires at + n <= area.Length
      ensures d == area[at..at + n]
    {
      d := [];
      for i := 0 to n
        invariant d == area[at..at + i]
      {
        d := d + [area[at + i]];
      }
    }

    /** Writes bytes at the end position, in two parts if they reach the end of the area. */
    method PutData(d: seq<byte>)
      requires Placed() && |d| <= area.Length
      modifies this`ringEnd, area
      ensures Written(old(area[..]), area[..], old(ringEnd), d)
      ensures ringEnd == Wrap(old(ringEnd) + |d|, area.Length)
      ensures Placed()
    {
      var rest := d;
      if ringEnd + |d| >= area.Length {
        var beforeWrap := area.Length - ringEnd;
        CopyIn(ringEnd, d[..beforeWrap]);
        rest := d[beforeWrap..];
        ringEnd := 0;
      }
      CopyIn(ringEnd, rest);
      ringEnd := ringEnd + |rest|;
    }

    /** Reads bytes at the begin position, in two parts if they reach the end of the area. */
    method GetData(n: nat) returns (d: seq<byte>)
      requires Placed() && n <= area.Length
      modifies this`ringBegin
      ensures d == Slice(area[..], old(ringBegin), n) && ringBegin == Wrap(old(ringBegin) + n, area.Length)
    {
      SlicePieces(area[..], ringBegin, n);
      hide Slice;
      d := [];
      var rest := n;
      if ringBegin + n >= area.Length {
        var beforeWrap := area.Length - ringBegin;
        d := CopyOut(ringBegin, beforeWrap);
        rest := n - beforeWrap;
        ringBegin := 0;
      }
      var d1 := CopyOut(ringBegin, rest);
      ringBegin := ringBegin + rest;
      d := d + d1;
    }

    /** Passes over bytes. Where this reaches the end of the area the position comes out wrong. */
    method SkipData(n: nat)
      requires Placed()
      modifies this`ringBegin
      ensures ringBegin == if old(ringBegin) + n < area.Length then old(ringBegin) + n else n
    {
      if ringBegin + n >= area.Length {
        ringBegin := 0;
      }
      ringBegin := ringBegin + n;
    }

    /** Writes the length and the packet. */
    method PutFrame(p: Packet)
      requires Placed() && |p| + 4 <= area.Length
      modifies this`ringEnd, area
      ensures FrameWritten(old(area[..]), area[..], old(ringEnd), p)
      ensures ringEnd == Wrap(Wrap(old(ringEnd) + 4, area.Length) + |p|, area.Length)
    {
      hide Written, LengthBytes;
      PutData(LengthBytes(|p|));
      PutData(p);
    }

    /**
     * Stores a packet, or reports that there is no room. An exactly full ring takes itself for an empty one:
     * then the packet is stored whenever it would fit an empty ring, over the packets that are there.
     */
    method Put(p: Packet) returns (r: nat)
      requires Valid()
      modifies this`ringEnd, this`packetCount, this`packets, area
      ensures r == 0 || r == 1
      ensures r == 0 <==> |p| + 4 <= if old(Full()) then area.Length else area.Length - Size(old(packets))
      ensures packets == if r == 0 then old(packets) + [p] else old(packets)
      ensures Valid() <==> r == 1 || (!old(Full()) && |p| < WORD32)
      ensures r == 1 ==> unchanged(this) && unchanged(area)
    {
      hide Stream, LengthBytes, Slice, FrameWritten, Frame;
      ghost var a0, q, total := area[..], packets, Size(packets);
      var reqSize := |p| + 4;
      var left := Remaining();
      StreamAppend(q, p);
      if left < reqSize {
        return 1;
      }
      PutFrame(p);
      packetCount := packetCount + 1;
      packets := packets + [p];
      assert packets[|q|] == p;
      if total < area.Length {
        FrameSlices(a0, area[..], ringBegin, q, p);
      }
      return 0;
    }

    /**
     * Takes the next packet. If the buffer offered is too small the packet is dropped, and the ring is in
     * order afterwards exactly when the dropped bytes did not reach the end of the area.
     */
    method Peek(size: nat) returns (r: nat, dataSize: nat, data: Packet)
      requires Valid()
      modifies this`ringBegin, this`packetCount, this`packets
      ensures old(packets) == [] ==> r == 1 && dataSize == size && unchanged(this)
      ensures old(packets) != [] ==> packets == old(packets)[1..] && dataSize == |old(packets)[0]|
      ensures old(packets) != [] && dataSize <= size ==> r == 0 && data == old(packets)[0] && Valid()
      ensures old(packets) != [] && dataSize <= size ==>
        ringBegin == Wrap(Wrap(old(ringBegin) + 4, area.Length) + dataSize, area.Length)
      ensures old(packets) != [] && size < dataSize ==> r == 1
      ensures old(packets) != [] && size < dataSize ==>
        (Valid() <==> Wrap(old(ringBegin) + 4, area.Length) + dataSize < area.Length)
    {
      hide Stream, LengthBytes, LengthOf, Slice, Frame;
      data := [];
      if packetCount == 0 {
        return 1, size, data;
      }
      ghost var q, b, total := packets, ringBegin, Size(packets);
      HeadFrame(area[..], b, q);
      packetCount := packetCount - 1;
      packets := packets[1..];
      var dsize := GetData(4);
      var n := LengthOf(dsize);
      if size < n {
        SkipData(n);
        dataSize := n;
        r := 1;
      } else {
        data := GetData(n);
        dataSize := n;
        r := 0;
      }
    }

    /** One operation: its answer is that of the queue exactly if it is fair, and then all is well afterwards. */
    method Perform(op: Op) returns (out: Out)
      requires Valid() && Short(op, area.Length)
      modifies this`ringBegin, this`ringEnd, this`packetCount, this`packets, area
      ensures Fair(old(packets), op, area.Length) <==> out == Fifo(old(packets), op, area.Length).1
      ensures Fair(old(packets), op, area.Length) ==> Valid() && packets == Fifo(old(packets), op, area.Length).0
    {
      hide Valid, Size, Stream;
      SizeBound();
      match op {
        case Put(p) =>
          var r := Put(p);
          out := if r == 0 then Stored else NoRoom;
        case Peek(size) =>
          var r, n, data := Peek(size);
          out := if r == 0 then Got(data) else NoPacket;
      }
    }

    /**
     * Performs operations one after the other, of which all but the last are fair. The answers are those of the
     * queue if and only if the last one is fair too: a run goes wrong at its first unfair operation, and only there.
     */
    method Run(ops: seq<Op>) returns (outs: seq<Out>)
      requires Valid() && FairBefore(packets, ops, area.Length) && forall op :: op in ops ==> Short(op, area.Length)
      modifies this`ringBegin, this`ringEnd, this`packetCount, this`packets, area
      ensures outs == FifoRun(old(packets), ops, area.Length) <==> FairRun(old(packets), ops, area.Length)
      ensures FairRun(old(packets), ops, area.Length) ==> Valid() && packets == AfterRun(old(packets), ops, area.Length)
      decreases |ops|
    {
      hide Valid, Fair, Fifo;
      outs := [];
      if ops != [] {
        ghost var should := FifoRun(packets, ops, area.Length);
        assert should[0] == Fifo(packets, ops[0], area.Length).1;
        var out := Perform(ops[0]);
        if |ops| == 1 { return [out]; }
        var rest := Run(ops[1..]);
        outs := [out] + rest;
        assert outs[1..] == rest && outs[0] == out;
        assert should[1..] == FifoRun(Fifo(old(packets), ops[0], area.Length).0, ops[1..], area.Length);
      }
    }

    lemma SizeBound()
      requires Valid()
      ensures Size(packets) <= area.Length
    {}
  }

  // ----- where the ring is no queue

  /** A ring of 12 bytes that holds a packet of 8 is exactly full, and yet takes another packet. */
  method FullTakesMore() returns (r: nat)
    ensures r == 0 && Fifo([seq(8, _ => 7)], Put(seq(4, _ => 9)), 12).1 == NoRoom
  {
    var ring := new Ring(DATA_BEGIN + 12, 0);
    var p: Packet := seq(8, _ => 7);
    StreamAppend([], p);
    assert [] + [p] == [p];
    var r0 := ring.Put(p);
    r := ring.Put(seq(4, _ => 9));
  }

  /** A packet dropped across the end of the area leaves the ring out of order. */
  method SkipMisplaces() returns (ring: Ring)
    ensures !ring.Valid()
  {
    ring := new Ring(DATA_BEGIN + 16, 0);
    var p: Packet := seq(6, _ => 7);
    StreamAppend([], p);
    assert [] + [p] == [p];
    var r := ring.Put(p);
    var n, data;
    r, n, data := ring.Peek(6);
    assert ring.packets == [] && Size([]) == 0;
    assert ring.ringBegin == 10;
    r := ring.Put(p);
    assert ring.packets[0] == p;
    r, n, data := ring.Peek(0);
    assert n == 6;
  }
}
