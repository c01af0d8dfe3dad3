/**
 * The heap as a row of boundary-tagged chunks, and the words of memory the allocator reads and writes.
 *
 * Memory is one map from word addresses to words. Every word the allocator touches is named by a Cell:
 * a field of a chunk, of a small-bin header, or a tree-bin root. Which cells are live depends on the
 * layout: link fields only inside free chunks, a foot only after a free chunk. All other words of a used
 * chunk belong to the caller.
 */
module HeapLayout {
  import opened BinIndex
  import opened Words

  datatype Chunk = Chunk(size: nat, used: bool)

  /** Chunks by address, tiling [base, top); then the top chunk up to end, where the trailing foot starts. */
  datatype Layout = Layout(chunks: map<nat, Chunk>, base: nat, top: nat, end: nat)

  /** The static words: 33 pairs of small-bin links, then 32 tree-bin roots. */
  const SMALLBINS: nat := 0x1000
  const TREEBINS: nat := 0x1000 + 528
  const STATIC_END: nat := 0x1000 + 528 + 256

  function Header(i: nat): nat {
    SMALLBINS + 16 * i
  }

  predicate IsHeader(a: nat) {
    SMALLBINS <= a < SMALLBINS + 512 && a % 16 == 0
  }

  datatype Cell =
    | Head(at: nat)
    | Foot(at: nat)
    | Fd(at: nat)
    | Bk(at: nat)
    | Child(at: nat, side: nat)
    | Parent(at: nat)
    | Index(at: nat)
    | Root(bin: nat)

  function Addr(c: Cell): nat {
    match c
    case Foot(x) => x
    case Head(x) => x + 8
    case Fd(x) => x + 16
    case Bk(x) => x + 24
    case Child(x, s) => x + 32 + 8 * s
    case Parent(x) => x + 48
    case Index(x) => x + 56
    case Root(b) => TREEBINS + 8 * b
  }

  function Get(m: Memory, c: Cell): nat {
    Load(m, Addr(c))
  }

  // ----- head words

  function Tag(size: nat, cinuse: bool, pinuse: bool): nat {
    size + (if cinuse then 2 else 0) + (if pinuse then 1 else 0)
  }

  function ChunkSize(h: nat): nat {
    h - h % 8
  }

  predicate Cinuse(h: nat) {
    h / 2 % 2 == 1
  }

  predicate Pinuse(h: nat) {
    h % 2 == 1
  }

  function WithPinuse(h: nat): nat {
    if Pinuse(h) then h else h + 1
  }

  function WithoutPinuse(h: nat): nat {
    h - h % 2
  }

  lemma TagFields(size: nat, c: bool, p: bool)
    requires size % 16 == 0
    ensures var h := Tag(size, c, p);
      && ChunkSize(h) == size && Cinuse(h) == c && Pinuse(h) == p
      && WithPinuse(h) == Tag(size, c, true) && WithoutPinuse(h) == Tag(size, c, false)
  {
    var f := (if c then 2 else 0) + (if p then 1 else 0);
    assert size == 16 * (size / 16);
    TagBits(size / 16, f);
  }

  lemma TagBits(k: nat, f: nat)
    requires f < 4
    ensures (16 * k + f) % 8 == f
    ensures (16 * k + f) % 2 == f % 2
    ensures (16 * k + f) / 2 % 2 == f / 2
  {
    Mod8(2 * k, f);
    Mod2(8 * k + f / 2, f % 2);
    Mod2(4 * k, f / 2);
  }

  lemma Aligned(a: nat, b: nat)
    requires a % 16 == 0 && b % 16 == 0
    ensures (a + b) % 16 == 0
    ensures a >= b ==> (a - b) % 16 == 0
  {
    var i, j := a / 16, b / 16;
    assert a == 16 * i && b == 16 * j;
    Mod16(i + j);
    if a >= b { Mod16(i - j); }
  }

  lemma Mod16(k: nat)
    ensures 16 * k % 16 == 0
  {}

  lemma Mod2(q: nat, r: nat)
    requires r < 2
    ensures (2 * q + r) % 2 == r && (2 * q + r) / 2 == q
  {}

  /** h is the tag of some chunk of this size and use; only the bit for the previous chunk is open. */
  predicate IsTag(h: nat, size: nat, used: bool) {
    h == Tag(size, used, true) || h == Tag(size, used, false)
  }

  // ----- well-formed layouts

  predicate InRow(l: Layout, x: nat) {
    x in l.chunks || x == l.top
  }

  ghost predicate LayoutOk(l: Layout) {
    && STATIC_END <= l.base <= l.top < l.end
    && l.base % 16 == 0 && l.top % 16 == 0 && l.end % 16 == 0
    && l.end + TOP_FOOT <= l.base + ARENA
    && InRow(l, l.base)
    && (forall x {:trigger ChunkOk(l, x)} :: x in l.chunks ==> ChunkOk(l, x))
    && (forall x, y {:trigger Apart(l, x, y)} :: x in l.chunks && y in l.chunks && x < y ==> Apart(l, x, y))
  }

  ghost predicate Apart(l: Layout, x: nat, y: nat)
    requires x in l.chunks
  {
    x + l.chunks[x].size <= y
  }

  ghost predicate ChunkOk(l: Layout, x: nat)
    requires x in l.chunks
  {
    && l.base <= x && x % 16 == 0
    && MIN_CHUNK <= l.chunks[x].size && l.chunks[x].size % 16 == 0
    && x + l.chunks[x].size <= l.top
    && InRow(l, x + l.chunks[x].size)
  }

  /** The chunk at x is followed by a used chunk. */
  ghost predicate Fenced(l: Layout, x: nat) {
    x in l.chunks && x + l.chunks[x].size in l.chunks && l.chunks[x + l.chunks[x].size].used
  }

  /** No two free chunks touch, and none touches top. */
  ghost predicate NoAdjacentFree(l: Layout) {
    forall x {:trigger Fenced(l, x)} :: FreeAt(l, x) ==> Fenced(l, x)
  }

  /** No used chunk ends at n. */
  ghost predicate AfterFree(l: Layout, n: nat) {
    forall y :: y in l.chunks && l.chunks[y].used ==> y + l.chunks[y].size != n
  }

  predicate FreeAt(l: Layout, x: nat) {
    x in l.chunks && !l.chunks[x].used
  }

  ghost predicate Live(l: Layout, c: Cell) {
    match c
    case Head(x) => InRow(l, x) || x == l.end
    case Foot(x) => InRow(l, x) && AfterFree(l, x)
    case Fd(x) => IsHeader(x) || FreeAt(l, x)
    case Bk(x) => IsHeader(x) || FreeAt(l, x)
    case Child(x, s) => FreeAt(l, x) && l.chunks[x].size >= MIN_LARGE && s < 2
    case Parent(x) => FreeAt(l, x) && l.chunks[x].size >= MIN_LARGE
    case Index(x) => FreeAt(l, x) && l.chunks[x].size >= MIN_LARGE
    case Root(b) => b < NTREEBINS
  }

  /** a is a word of the used chunk at y that belongs to the caller, up to and including the next foot. */
  predicate UserWordOf(l: Layout, y: nat, a: nat) {
    y in l.chunks && l.chunks[y].used && y + 16 <= a < y + l.chunks[y].size + 8
  }

  ghost predicate UserWord(l: Layout, a: nat) {
    exists y :: UserWordOf(l, y, a)
  }

  /** The extent of a live cell: which part of the row of chunks it lies in. */
  lemma CellPlace(l: Layout, c: Cell)
    requires LayoutOk(l) && Live(l, c)
    ensures !c.Root? && !IsHeader(c.at) ==> l.base <= Addr(c)
    ensures c.Root? || IsHeader(c.at) ==> Addr(c) < l.base
    ensures Addr(c) < l.end + 16
    ensures c.Root? || IsHeader(c.at) ==> c.Root? || c.Fd? || c.Bk?
    ensures !c.Root? ==> IsHeader(c.at) || InRow(l, c.at) || c.at == l.end
    ensures !c.Root? && c.at in l.chunks && !c.Foot? && !c.Head? ==> Addr(c) < c.at + l.chunks[c.at].size
  {
    if !c.Root? && c.at in l.chunks { assert ChunkOk(l, c.at); }
  }

  /** Two live cells never share a word. */
  lemma CellsDistinct(l: Layout, c: Cell, d: Cell)
    requires LayoutOk(l) && Live(l, c) && Live(l, d)
    requires Addr(c) == Addr(d)
    ensures c == d
  {
    CellPlace(l, c);
    CellPlace(l, d);
    if c.Root? || d.Root? || IsHeader(c.at) || IsHeader(d.at) {
      StaticDistinct(c, d);
    } else if c.at < d.at {
      hide *;
      CellsApart(l, c, d);
    } else if d.at < c.at {
      hide *;
      CellsApart(l, d, c);
    } else {
      hide LayoutOk;
      FieldsDistinct(l, c, d);
    }
  }

  lemma FieldsDistinct(l: Layout, c: Cell, d: Cell)
    requires Live(l, c) && Live(l, d) && !c.Root? && !d.Root? && c.at == d.at
    requires Addr(c) == Addr(d)
    ensures c == d
  {
    hide LayoutOk;
  }

  lemma StaticDistinct(c: Cell, d: Cell)
    requires c.Root? || ((c.Fd? || c.Bk?) && IsHeader(c.at))
    requires d.Root? || ((d.Fd? || d.Bk?) && IsHeader(d.at))
    requires Addr(c) == Addr(d)
    ensures c == d
  {}

  lemma CellsApart(l: Layout, c: Cell, d: Cell)
    requires LayoutOk(l) && Live(l, c) && Live(l, d)
    requires !c.Root? && !d.Root? && !IsHeader(c.at) && !IsHeader(d.at)
    requires c.at < d.at
    ensures Addr(c) < Addr(d)
  {
    CellPlace(l, c);
    if d.at in l.chunks { assert ChunkOk(l, d.at); }
    if c.at in l.chunks {
      assert ChunkOk(l, c.at);
      if d.at in l.chunks {
        assert Apart(l, c.at, d.at);
      }
    }
  }

  /** The allocator's words are not the caller's. */
  lemma CellNotUser(l: Layout, c: Cell, a: nat)
    requires LayoutOk(l) && Live(l, c) && UserWord(l, a)
    ensures Addr(c) != a
  {
    var y :| UserWordOf(l, y, a);
    CellPlace(l, c);
    assert ChunkOk(l, y);
    if !c.Root? && !IsHeader(c.at) {
      CellNotInChunk(l, c, y, a);
    }
  }

  lemma CellNotInChunk(l: Layout, c: Cell, y: nat, a: nat)
    requires LayoutOk(l) && Live(l, c) && UserWordOf(l, y, a)
    requires !c.Root? && !IsHeader(c.at)
    ensures Addr(c) != a
  {
    assert ChunkOk(l, y);
    CellPlace(l, c);
    if c.at < y {
      CellBeforeChunk(l, c, y);
    } else if c.at < y + l.chunks[y].size {
      NoRowInside(l, y, c.at);
    } else {
      assert c.at in l.chunks ==> ChunkOk(l, c.at);
    }
  }

  /** Between a chunk's start and its end no other chunk starts. */
  lemma NoRowInside(l: Layout, y: nat, x: nat)
    requires LayoutOk(l) && y in l.chunks
    requires InRow(l, x) || x == l.end
    requires y <= x < y + l.chunks[y].size
    ensures x == y
  {
    assert ChunkOk(l, y);
    assert x in l.chunks && y < x ==> Apart(l, y, x);
  }

  lemma CellBeforeChunk(l: Layout, c: Cell, y: nat)
    requires LayoutOk(l) && Live(l, c) && !c.Root? && !IsHeader(c.at)
    requires y in l.chunks && c.at < y
    ensures Addr(c) < y
  {
    assert ChunkOk(l, y);
    assert c.at in l.chunks;
    assert ChunkOk(l, c.at) && Apart(l, c.at, y);
    CellPlace(l, c);
  }

  // ----- what a write leaves alone

  /** The caller's words are the same in both memories. */
  ghost predicate UserSame(l: Layout, m: Memory, m': Memory) {
    forall a {:trigger Load(m', a)} :: UserWord(l, a) ==> Load(m', a) == Load(m, a)
  }

  /** m' differs from m, on live cells and caller words, exactly by the words w. */
  ghost predicate Writes(l: Layout, m: Memory, m': Memory, w: map<Cell, nat>) {
    && (forall d {:trigger Get(m', d)} :: Live(l, d) ==> Get(m', d) == if d in w then w[d] else Get(m, d))
    && UserSame(l, m, m')
  }

  predicate IsTagCell(c: Cell) {
    c.Head? || c.Foot?
  }

  ghost predicate TagsSame(l: Layout, m: Memory, m': Memory) {
    forall c {:trigger Get(m', c)} :: Live(l, c) && IsTagCell(c) ==> Get(m', c) == Get(m, c)
  }

  ghost predicate LinksSame(l: Layout, m: Memory, m': Memory) {
    forall c {:trigger Get(m', c)} :: Live(l, c) && !IsTagCell(c) ==> Get(m', c) == Get(m, c)
  }

  /** Writing one live cell changes that cell and nothing else the allocator or a caller can see. */
  lemma StoreFrame(l: Layout, m0: Memory, m: Memory, w: map<Cell, nat>, c: Cell, v: nat)
    requires LayoutOk(l) && Live(l, c) && Writes(l, m0, m, w)
    ensures Writes(l, m0, m[Addr(c) := v], w[c := v])
  {
    var m', w' := m[Addr(c) := v], w[c := v];
    hide LayoutOk, Live, UserWord, Addr;
    forall d | Live(l, d) ensures Get(m', d) == if d in w' then w'[d] else Get(m0, d) {
      if Addr(d) == Addr(c) { CellsDistinct(l, c, d); }
      assert Get(m, d) == if d in w then w[d] else Get(m0, d);
    }
    forall a | UserWord(l, a) ensures Load(m', a) == Load(m0, a) {
      CellNotUser(l, c, a);
      assert Load(m, a) == Load(m0, a);
    }
  }

  lemma OnlyLinkWrites(l: Layout, m: Memory, m': Memory, w: map<Cell, nat>)
    requires Writes(l, m, m', w) && forall c :: c in w ==> !IsTagCell(c)
    ensures TagsSame(l, m, m') && UserSame(l, m, m')
  {
    hide Get, Live, UserSame;
  }

  lemma OnlyTagWrites(l: Layout, m: Memory, m': Memory, w: map<Cell, nat>)
    requires Writes(l, m, m', w) && forall c :: c in w ==> IsTagCell(c)
    ensures LinksSame(l, m, m') && UserSame(l, m, m')
  {
    hide Get, Live, UserSame;
  }
}
