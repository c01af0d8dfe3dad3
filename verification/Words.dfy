/**
 * Memory as words by address, the bytes within words, and the byte loops that move and fill memory.
 */
module Words {
  type Memory = map<nat, nat>

  function Load(m: Memory, a: nat): nat {
    if a in m then m[a] else 0
  }

  lemma Mod8(q: nat, r: nat)
    requires r < 8
    ensures (8 * q + r) % 8 == r
  {}

  lemma TimesLess(n: nat, q: nat, s: nat)
    requires q < s
    ensures n * q + n <= n * s
    decreases s
  {
    NextMultiple(n, s - 1);
    if q < s - 1 { TimesLess(n, q, s - 1); }
  }

  lemma NextMultiple(n: nat, s: nat)
    ensures n * (s + 1) == n * s + n
  {}

  lemma Remainder(x: nat, d: nat, q: nat, r: nat)
    requires d > 0 && x == d * q + r && r < d
    ensures x % d == r
  {
    var q0, r0 := x / d, x % d;
    assert x == d * q0 + r0;
    hide *;
    if q0 < q { TimesLess(d, q0, q); }
    if q < q0 { TimesLess(d, q, q0); }
  }

  /** Byte k of a word, counted from the low end. */
  function ByteOf(w: nat, k: nat): (b: nat)
    ensures b < 256
    decreases k
  {
    if k == 0 then w % 256 else ByteOf(w / 256, k - 1)
  }

  /** The word with byte k replaced. */
  function WithByte(w: nat, k: nat, b: nat): nat
    decreases k
  {
    if k == 0 then w / 256 * 256 + b else 256 * WithByte(w / 256, k - 1, b) + w % 256
  }

  function ByteAt(m: Memory, a: nat): nat {
    ByteOf(Load(m, a - a % 8), a % 8)
  }

  function PutByte(m: Memory, a: nat, b: nat): Memory {
    m[a - a % 8 := WithByte(Load(m, a - a % 8), a % 8, b)]
  }

  lemma {:induction false} ByteReplaced(w: nat, k: nat, b: nat, j: nat)
    requires b < 256
    ensures ByteOf(WithByte(w, k, b), j) == if j == k then b else ByteOf(w, j)
    decreases k
  {
    if k == 0 {
      assert (w / 256 * 256 + b) / 256 == w / 256;
    } else {
      var v := WithByte(w / 256, k - 1, b);
      assert (256 * v + w % 256) / 256 == v;
      if j > 0 { ByteReplaced(w / 256, k - 1, b, j - 1); }
    }
  }

  /** Storing a byte changes that byte and no other, and only its own word. */
  lemma ByteStored(m: Memory, a: nat, b: nat)
    requires b < 256
    ensures forall c: nat {:trigger ByteAt(PutByte(m, a, b), c)} ::
      ByteAt(PutByte(m, a, b), c) == if c == a then b else ByteAt(m, c)
    ensures forall c: nat {:trigger Load(PutByte(m, a, b), c)} ::
      c != a - a % 8 ==> Load(PutByte(m, a, b), c) == Load(m, c)
  {
    forall c: nat ensures ByteAt(PutByte(m, a, b), c) == if c == a then b else ByteAt(m, c) {
      ByteReplaced(Load(m, a - a % 8), a % 8, b, c % 8);
    }
  }

  /** m' is m with the count bytes at dest taken from src. */
  ghost predicate Copied(m: Memory, m': Memory, dest: nat, src: nat, count: nat) {
    && (forall a: nat {:trigger ByteAt(m', a)} ::
        dest <= a < dest + count ==> ByteAt(m', a) == ByteAt(m, src + (a - dest)))
    && (forall a: nat {:trigger ByteAt(m', a)} :: !(dest <= a < dest + count) ==> ByteAt(m', a) == ByteAt(m, a))
  }

  /** Only words that overlap the bytes at dest differ. */
  ghost predicate OnlyWords(m: Memory, m': Memory, dest: nat, count: nat) {
    forall c: nat {:trigger Load(m', c)} ::
      (c % 8 != 0 || c + 8 <= dest || dest + count <= c) ==> Load(m', c) == Load(m, c)
  }

  /** Copies count bytes, front to back or back to front, so that overlapping areas are copied correctly. */
  method MemMove(m: Memory, dest: nat, src: nat, count: nat) returns (m': Memory)
    ensures Copied(m, m', dest, src, count) && OnlyWords(m, m', dest, count)
  {
    m' := m;
    hide ByteAt, PutByte;
    if dest < src {
      var s8, d8 := src, dest;
      while d8 < dest + count
        invariant dest <= d8 <= dest + count && s8 == src + (d8 - dest)
        invariant forall a: nat {:trigger ByteAt(m', a)} ::
          ByteAt(m', a) == if dest <= a < d8 then ByteAt(m, src + (a - dest)) else ByteAt(m, a)
        invariant OnlyWords(m, m', dest, count)
      {
        var b := ByteAt(m', s8);
        ByteBound(m', s8);
        ByteStored(m', d8, b);
        WordsKept(m, m', d8, b, dest, count);
        m' := PutByte(m', d8, b);
        d8, s8 := d8 + 1, s8 + 1;
      }
    } else {
      var s8, d8 := src + count, dest + count;
      while d8 > dest
        invariant dest <= d8 <= dest + count && s8 == src + (d8 - dest)
        invariant forall a: nat {:trigger ByteAt(m', a)} ::
          ByteAt(m', a) == if d8 <= a < dest + count then ByteAt(m, src + (a - dest)) else ByteAt(m, a)
        invariant OnlyWords(m, m', dest, count)
      {
        d8, s8 := d8 - 1, s8 - 1;
        var b := ByteAt(m', s8);
        ByteBound(m', s8);
        ByteStored(m', d8, b);
        WordsKept(m, m', d8, b, dest, count);
        m' := PutByte(m', d8, b);
      }
    }
  }

  /** Fills count bytes. */
  method MemSet(m: Memory, dest: nat, v: nat, count: nat) returns (m': Memory)
    requires v < 256
    ensures forall a: nat {:trigger ByteAt(m', a)} ::
      ByteAt(m', a) == if dest <= a < dest + count then v else ByteAt(m, a)
    ensures OnlyWords(m, m', dest, count)
  {
    m' := m;
    hide ByteAt, PutByte;
    var m8 := dest;
    while m8 < dest + count
      invariant dest <= m8 <= dest + count
      invariant forall a: nat {:trigger ByteAt(m', a)} :: ByteAt(m', a) == if dest <= a < m8 then v else ByteAt(m, a)
      invariant OnlyWords(m, m', dest, count)
    {
      ByteStored(m', m8, v);
      WordsKept(m, m', m8, v, dest, count);
      m' := PutByte(m', m8, v);
      m8 := m8 + 1;
    }
  }

  lemma ByteBound(m: Memory, a: nat)
    ensures ByteAt(m, a) < 256
  {}

  lemma WordsKept(m: Memory, m': Memory, a: nat, b: nat, dest: nat, count: nat)
    requires OnlyWords(m, m', dest, count) && dest <= a < dest + count && b < 256
    ensures OnlyWords(m, PutByte(m', a, b), dest, count)
  {
    ByteStored(m', a, b);
    var w := a - a % 8;
    Mod8(a / 8, 0);
    assert w == 8 * (a / 8) && w % 8 == 0;
    hide PutByte, ByteAt;
  }

  /** Equal words have equal bytes. */
  lemma SameBytes(m: Memory, m': Memory, a: nat)
    requires Load(m', a - a % 8) == Load(m, a - a % 8)
    ensures ByteAt(m', a) == ByteAt(m, a)
  {}
}
