/**
 * Boundary tags, and the edits of the row of chunks: replacing a stretch of it by one or two chunks,
 * moving the edge of top, and growing the segment.
 */
module HeapEdits {
  import opened BinIndex
  import opened HeapLayout
  import opened Words

  // ----- tags

  /** The head word of a chunk holds its size and use. */
  ghost predicate HeadOk(l: Layout, m: Memory, x: nat)
    requires x in l.chunks
  {
    IsTag(Get(m, Head(x)), l.chunks[x].size, l.chunks[x].used)
  }

  /** The next head word knows whether the chunk is used, and a free chunk repeats its size behind itself. */
  ghost predicate AfterOk(l: Layout, m: Memory, x: nat)
    requires x in l.chunks
  {
    var n := x + l.chunks[x].size;
    Pinuse(Get(m, Head(n))) == l.chunks[x].used && (!l.chunks[x].used ==> Get(m, Foot(n)) == l.chunks[x].size)
  }

  ghost predicate TagsOk(l: Layout, m: Memory) {
    && (forall x :: x in l.chunks ==> HeadOk(l, m, x) && AfterOk(l, m, x))
    && Pinuse(Get(m, Head(l.base)))
    && l.top <= l.end && IsTag(Get(m, Head(l.top)), l.end - l.top, false)
    && Get(m, Head(l.end)) == TOP_FOOT
  }

  lemma TagReads(h: nat, size: nat, used: bool)
    requires IsTag(h, size, used) && size % 16 == 0
    ensures ChunkSize(h) == size && Cinuse(h) == used && h == Tag(size, used, Pinuse(h))
    ensures IsTag(WithPinuse(h), size, used) && Pinuse(WithPinuse(h))
    ensures IsTag(WithoutPinuse(h), size, used) && !Pinuse(WithoutPinuse(h))
    ensures WithPinuse(h) == Tag(size, used, true) && WithoutPinuse(h) == Tag(size, used, false)
  {
    TagFields(size, used, true);
    TagFields(size, used, false);
  }

  /** Every chunk but the first has a chunk in front of it. */
  lemma {:induction false} Before(l: Layout, x: nat) returns (y: nat)
    requires LayoutOk(l) && InRow(l, x) && x != l.base
    ensures y in l.chunks && y + l.chunks[y].size == x && y < x
  {
    RowBounds(l, x);
    y := BeforeFrom(l, x, l.base);
  }

  lemma {:induction false} BeforeFrom(l: Layout, x: nat, from: nat) returns (y: nat)
    requires LayoutOk(l) && InRow(l, x) && InRow(l, from) && from < x
    ensures y in l.chunks && y + l.chunks[y].size == x && y < x
    decreases x - from
  {
    RowBounds(l, x);
    assert ChunkOk(l, from);
    var n := from + l.chunks[from].size;
    if n == x {
      y := from;
    } else {
      assert x in l.chunks ==> Apart(l, from, x);
      y := BeforeFrom(l, x, n);
    }
  }

  lemma RowBounds(l: Layout, x: nat)
    requires LayoutOk(l) && InRow(l, x)
    ensures l.base <= x <= l.top && x % 16 == 0
  {
    if x in l.chunks { assert ChunkOk(l, x); }
  }

  /** What a head word says about the chunk before. */
  lemma PinuseTells(l: Layout, m: Memory, x: nat)
    requires LayoutOk(l) && TagsOk(l, m) && InRow(l, x)
    ensures !Pinuse(Get(m, Head(x))) ==>
      var y := x - Get(m, Foot(x)); Get(m, Foot(x)) <= x && FreeAt(l, y) && y + l.chunks[y].size == x
    ensures Pinuse(Get(m, Head(x))) ==> NoFreeBefore(l, x)
  {
    hide LayoutOk, Pinuse, Get;
    forall y: nat | FreeAt(l, y) ensures y + l.chunks[y].size == x ==> !Pinuse(Get(m, Head(x))) {
      assert AfterOk(l, m, y);
    }
    if x != l.base {
      var y := Before(l, x);
      assert AfterOk(l, m, y);
    }
  }

  // ----- edits of the row

  ghost function Outside(l: Layout, lo: nat, hi: nat): map<nat, Chunk> {
    map x | x in l.chunks && !(lo <= x < hi) :: l.chunks[x]
  }

  /** The stretch [lo, hi) becomes one chunk. */
  ghost function One(l: Layout, lo: nat, hi: nat, used: bool): Layout
    requires lo < hi
  {
    l.(chunks := Outside(l, lo, hi)[lo := Chunk(hi - lo, used)])
  }

  /** The stretch [lo, hi) becomes two chunks. */
  ghost function Two(l: Layout, lo: nat, mid: nat, hi: nat, used1: bool, used2: bool): Layout
    requires lo < mid < hi
  {
    l.(chunks := Outside(l, lo, hi)[lo := Chunk(mid - lo, used1)][mid := Chunk(hi - mid, used2)])
  }

  /** Everything from lo on becomes part of top. */
  ghost function TopGive(l: Layout, lo: nat): Layout {
    l.(chunks := Outside(l, lo, l.top), top := lo)
  }

  /** The first n bytes of top become a used chunk. */
  ghost function TopTake(l: Layout, n: nat): Layout {
    l.(chunks := l.chunks[l.top := Chunk(n, true)], top := l.top + n)
  }

  ghost function Grow(l: Layout, n: nat): Layout {
    l.(end := l.end + n)
  }

  /** A stretch of the row: starts at a chunk, ends at a chunk or at top. */
  ghost predicate Stretch(l: Layout, lo: nat, hi: nat) {
    lo in l.chunks && InRow(l, hi) && lo < hi
  }

  /** No chunk crosses the edges of a stretch. */
  lemma StretchEdges(l: Layout, lo: nat, hi: nat)
    requires LayoutOk(l) && Stretch(l, lo, hi)
    ensures lo % 16 == 0 && hi % 16 == 0 && l.base <= lo && hi <= l.top && hi - lo >= MIN_CHUNK
    ensures lo + l.chunks[lo].size <= hi
    ensures (hi - lo) % 16 == 0
  {
    RowBounds(l, lo);
    RowBounds(l, hi);
    Aligned(hi, lo);
    assert ChunkOk(l, lo);
    assert hi in l.chunks ==> Apart(l, lo, hi);
  }

  lemma EndsBefore(l: Layout, x: nat, hi: nat)
    requires LayoutOk(l) && x in l.chunks && InRow(l, hi) && x < hi
    ensures x + l.chunks[x].size <= hi
  {
    assert ChunkOk(l, x);
    assert hi in l.chunks ==> Apart(l, x, hi);
  }

  /** A chunk outside the stretch, seen in a layout that kept it. */
  lemma KeptChunk(l: Layout, l': Layout, lo: nat, hi: nat, x: nat)
    requires LayoutOk(l) && Stretch(l, lo, hi) && x in l.chunks && (x < lo || hi <= x)
    requires l'.base == l.base && l'.top == l.top && x in l'.chunks && l'.chunks[x] == l.chunks[x]
    requires lo in l'.chunks && forall y :: y in Outside(l, lo, hi) ==> y in l'.chunks
    ensures ChunkOk(l', x)
  {
    assert ChunkOk(l, x);
    if x < lo { EndsBefore(l, x, lo); }
    StretchEdges(l, lo, hi);
  }

  lemma Assemble(l: Layout, l': Layout)
    requires LayoutOk(l) && l'.base == l.base && l'.top == l.top && l'.end == l.end && InRow(l', l.base)
    requires forall x {:trigger ChunkOk(l', x)} :: x in l'.chunks ==> ChunkOk(l', x)
    requires forall x, y {:trigger Apart(l', x, y)} :: x in l'.chunks && y in l'.chunks && x < y ==> Apart(l', x, y)
    ensures LayoutOk(l')
  {
    hide ChunkOk, Apart;
  }

  lemma OneOk(l: Layout, lo: nat, hi: nat, used: bool)
    requires LayoutOk(l) && Stretch(l, lo, hi)
    ensures LayoutOk(One(l, lo, hi, used))
  {
    var l' := One(l, lo, hi, used);
    StretchEdges(l, lo, hi);
    assert InRow(l', l.base) by { BaseKept(l, lo, hi, used); }
    OneKeeps(l, lo, hi, used);
    hide LayoutOk, ChunkOk, Apart, One, Outside;
    forall x | x in l'.chunks ensures ChunkOk(l', x) {
      if x == lo { OneHead(l, lo, hi, used); } else { KeptChunk(l, l', lo, hi, x); }
    }
    forall x, y | x in l'.chunks && y in l'.chunks && x < y ensures Apart(l', x, y) {
      OneApart(l, lo, hi, used, x, y);
    }
    Assemble(l, l');
  }

  lemma BaseKept(l: Layout, lo: nat, hi: nat, used: bool)
    requires LayoutOk(l) && Stretch(l, lo, hi)
    ensures InRow(One(l, lo, hi, used), l.base)
  {
    StretchEdges(l, lo, hi);
  }

  /** Outside the stretch the chunks are those of before. */
  lemma OneKeeps(l: Layout, lo: nat, hi: nat, used: bool)
    requires lo < hi
    ensures var l' := One(l, lo, hi, used);
      && l'.base == l.base && l'.top == l.top && l'.end == l.end && lo in l'.chunks
      && l'.chunks[lo] == Chunk(hi - lo, used)
      && (forall x :: x in l'.chunks && x != lo ==> x in l.chunks && (x < lo || hi <= x) && l'.chunks[x] == l.chunks[x])
      && (forall y :: y in Outside(l, lo, hi) ==> y in l'.chunks)
      && (forall y :: y in l.chunks && (y < lo || hi <= y) ==> y in l'.chunks && l'.chunks[y] == l.chunks[y])
  {}

  lemma OneHead(l: Layout, lo: nat, hi: nat, used: bool)
    requires LayoutOk(l) && Stretch(l, lo, hi)
    ensures ChunkOk(One(l, lo, hi, used), lo)
  {
    StretchEdges(l, lo, hi);
    hide LayoutOk;
  }

  lemma OneApart(l: Layout, lo: nat, hi: nat, used: bool, x: nat, y: nat)
    requires LayoutOk(l) && Stretch(l, lo, hi) && x in One(l, lo, hi, used).chunks && y in One(l, lo, hi, used).chunks
    requires x < y
    ensures Apart(One(l, lo, hi, used), x, y)
  {
    StretchEdges(l, lo, hi);
    if x != lo {
      EndsBefore(l, x, y);
    }
  }

  lemma TwoOk(l: Layout, lo: nat, mid: nat, hi: nat, used1: bool, used2: bool)
    requires LayoutOk(l) && Stretch(l, lo, hi)
    requires lo + MIN_CHUNK <= mid && mid + MIN_CHUNK <= hi && mid % 16 == 0
    ensures LayoutOk(Two(l, lo, mid, hi, used1, used2))
  {
    StretchEdges(l, lo, hi);
    Aligned(mid, lo);
    Aligned(hi, mid);
    var l' := Two(l, lo, mid, hi, used1, used2);
    forall x | x in l'.chunks ensures ChunkOk(l', x) {
      if x != lo && x != mid { KeptChunk(l, l', lo, hi, x); }
    }
    forall x, y | x in l'.chunks && y in l'.chunks && x < y ensures Apart(l', x, y) {
      TwoPartsApart(l, lo, mid, hi, used1, used2, x, y);
    }
  }

  lemma TwoPartsApart(l: Layout, lo: nat, mid: nat, hi: nat, used1: bool, used2: bool, x: nat, y: nat)
    requires LayoutOk(l) && Stretch(l, lo, hi) && lo < mid < hi
    requires x in Two(l, lo, mid, hi, used1, used2).chunks && y in Two(l, lo, mid, hi, used1, used2).chunks && x < y
    ensures Apart(Two(l, lo, mid, hi, used1, used2), x, y)
  {
    StretchEdges(l, lo, hi);
    if x != lo && x != mid {
      EndsBefore(l, x, if y == mid then lo else y);
    }
  }

  lemma TopGiveOk(l: Layout, lo: nat)
    requires LayoutOk(l) && lo in l.chunks
    ensures LayoutOk(TopGive(l, lo))
  {
    assert ChunkOk(l, lo);
    var l' := TopGive(l, lo);
    forall x | x in l'.chunks ensures ChunkOk(l', x) {
      assert ChunkOk(l, x);
      EndsBefore(l, x, lo);
    }
    forall x, y | x in l'.chunks && y in l'.chunks && x < y ensures Apart(l', x, y) {
      assert Apart(l, x, y);
    }
  }

  lemma TopTakeOk(l: Layout, n: nat)
    requires LayoutOk(l) && n % 16 == 0 && MIN_CHUNK <= n && l.top + n < l.end
    ensures LayoutOk(TopTake(l, n))
  {
    var l' := TopTake(l, n);
    Aligned(l.top, n);
    forall x | x in l.chunks ensures x < l.top && x + l.chunks[x].size <= l.top { assert ChunkOk(l, x); }
    forall x | x in l'.chunks ensures ChunkOk(l', x) {
      if x != l.top { assert ChunkOk(l, x); }
    }
    forall x, y | x in l'.chunks && y in l'.chunks && x < y ensures Apart(l', x, y) {
      assert y != l.top ==> Apart(l, x, y);
    }
  }

  lemma GrowOk(l: Layout, n: nat)
    requires LayoutOk(l) && n % 16 == 0 && l.end + n + TOP_FOOT <= l.base + ARENA
    ensures LayoutOk(Grow(l, n))
  {
    Aligned(l.end, n);
    NewEnd(l, l.end + n);
  }

  lemma NewEnd(l: Layout, e: nat)
    requires LayoutOk(l) && e % 16 == 0 && l.top < e && e + TOP_FOOT <= l.base + ARENA
    ensures LayoutOk(l.(end := e))
  {
    var l' := l.(end := e);
    forall x | x in l'.chunks ensures ChunkOk(l', x) { assert ChunkOk(l, x); }
    forall x, y | x in l'.chunks && y in l'.chunks && x < y ensures Apart(l', x, y) { assert Apart(l, x, y); }
  }

  // ----- no two free chunks touch

  /** No free chunk ends at x. */
  ghost predicate NoFreeBefore(l: Layout, x: nat) {
    forall y: nat :: FreeAt(l, y) ==> y + l.chunks[y].size != x
  }

  lemma OneFreeApart(l: Layout, lo: nat, hi: nat)
    requires LayoutOk(l) && NoAdjacentFree(l) && Stretch(l, lo, hi)
    requires hi in l.chunks && l.chunks[hi].used && NoFreeBefore(l, lo)
    ensures NoAdjacentFree(One(l, lo, hi, false))
  {
    var l' := One(l, lo, hi, false);
    forall x | FreeAt(l', x) ensures Fenced(l', x) {
      if x != lo { FencedOutside(l, lo, hi, x); }
    }
  }

  lemma FencedOutside(l: Layout, lo: nat, hi: nat, x: nat)
    requires LayoutOk(l) && NoAdjacentFree(l) && Stretch(l, lo, hi) && FreeAt(l, x) && (x < lo || hi <= x)
    ensures var n := x + l.chunks[x].size; n in l.chunks && l.chunks[n].used && (n <= lo || hi <= n)
  {
    assert Fenced(l, x);
    if x < lo { EndsBefore(l, x, lo); }
  }

  lemma OneUsedApart(l: Layout, lo: nat, hi: nat)
    requires LayoutOk(l) && NoAdjacentFree(l) && Stretch(l, lo, hi)
    ensures NoAdjacentFree(One(l, lo, hi, true))
  {
    var l' := One(l, lo, hi, true);
    forall x | FreeAt(l', x) ensures Fenced(l', x) {
      FencedOutside(l, lo, hi, x);
    }
  }

  lemma TwoApart(l: Layout, lo: nat, mid: nat, hi: nat, used2: bool)
    requires LayoutOk(l) && NoAdjacentFree(l) && Stretch(l, lo, hi) && lo < mid < hi
    requires !used2 ==> hi in l.chunks && l.chunks[hi].used
    ensures NoAdjacentFree(Two(l, lo, mid, hi, true, used2))
  {
    var l' := Two(l, lo, mid, hi, true, used2);
    forall x | FreeAt(l', x) ensures Fenced(l', x) {
      if x != mid { FencedOutside(l, lo, hi, x); }
    }
  }

  lemma TopGiveApart(l: Layout, lo: nat)
    requires LayoutOk(l) && NoAdjacentFree(l) && lo in l.chunks && NoFreeBefore(l, lo)
    ensures NoAdjacentFree(TopGive(l, lo))
  {
    var l' := TopGive(l, lo);
    forall x | FreeAt(l', x) ensures Fenced(l', x) {
      assert Fenced(l, x);
      assert ChunkOk(l, x) && ChunkOk(l, lo);
      EndsBefore(l, x, lo);
    }
  }

  lemma TopTakeApart(l: Layout, n: nat)
    requires LayoutOk(l) && NoAdjacentFree(l) && n > 0
    ensures NoAdjacentFree(TopTake(l, n))
  {
    var l' := TopTake(l, n);
    forall x: nat | FreeAt(l', x) ensures Fenced(l', x) {
      assert Fenced(l, x);
      assert ChunkOk(l, x + l.chunks[x].size);
    }
  }

  // ----- tags after an edit

  /** Apart from the words named, head and foot words are as before. */
  ghost predicate TagsKept(l: Layout, m: Memory, m': Memory, heads: set<nat>, feet: set<nat>) {
    && (forall x {:trigger Get(m', Head(x))} :: Live(l, Head(x)) && x !in heads ==> Get(m', Head(x)) == Get(m, Head(x)))
    && (forall x {:trigger Get(m', Foot(x))} :: Live(l, Foot(x)) && x !in feet ==> Get(m', Foot(x)) == Get(m, Foot(x)))
  }

  /** The bit for the previous chunk may change in a head word, nothing else. */
  ghost predicate SameTag(h: nat, h': nat, pinuse: bool) {
    h' == if pinuse then WithPinuse(h) else WithoutPinuse(h)
  }

  lemma SameTagOk(h: nat, h': nat, p: bool, size: nat, used: bool)
    requires IsTag(h, size, used) && size % 16 == 0 && SameTag(h, h', p)
    ensures IsTag(h', size, used) && Pinuse(h') == p
  {
    TagReads(h, size, used);
  }

  lemma TagPinuse(size: nat, used: bool, p: bool)
    requires size % 16 == 0
    ensures Pinuse(Tag(size, used, p)) == p && IsTag(Tag(size, used, p), size, used)
  {
    TagFields(size, used, p);
  }

  /** Tags after the stretch [lo, hi) has become one chunk. */
  lemma OneTags(l: Layout, lo: nat, hi: nat, used: bool, m: Memory, m': Memory)
    requires LayoutOk(l) && TagsOk(l, m) && Stretch(l, lo, hi)
    requires Get(m', Head(lo)) == Tag(hi - lo, used, Pinuse(Get(m, Head(lo))))
    requires SameTag(Get(m, Head(hi)), Get(m', Head(hi)), used)
    requires !used ==> Get(m', Foot(hi)) == hi - lo
    requires TagsKept(One(l, lo, hi, used), m, m', {lo, hi}, {hi})
    ensures TagsOk(One(l, lo, hi, used), m')
  {
    hide TagsOk, LayoutOk, Stretch, One, Outside, Get, Tag, IsTag, Pinuse, SameTag, HeadOk, AfterOk, TagsKept, Around,
      InRow;
    StretchEdges(l, lo, hi);
    var l' := One(l, lo, hi, used);
    OneOk(l, lo, hi, used);
    TagPinuse(hi - lo, used, Pinuse(Get(m, Head(lo))));
    OneKeeps(l, lo, hi, used);
    EdgeHeadOf(l, m, m', lo, hi, used);
    TagsAt(l', m', lo, hi, used);
    OneAround(l, lo, hi, used);
    HeadsIn(lo, hi, {lo, hi});
    TagsAround(l, l', m, m', lo, hi, used, {lo, hi});
  }

  lemma HeadsIn(lo: nat, hi: nat, heads: set<nat>)
    requires lo < hi && heads == {lo, hi}
    ensures forall h :: h in heads ==> lo <= h <= hi
  {}

  lemma OneAround(l: Layout, lo: nat, hi: nat, used: bool)
    requires lo < hi
    ensures Around(l, One(l, lo, hi, used), lo, hi)
    ensures forall x :: x in One(l, lo, hi, used).chunks && lo <= x < hi ==> x == lo
  {}

  lemma TwoAround(l: Layout, lo: nat, mid: nat, hi: nat, used1: bool, used2: bool)
    requires lo < mid < hi
    ensures Around(l, Two(l, lo, mid, hi, used1, used2), lo, hi)
    ensures forall x :: x in Two(l, lo, mid, hi, used1, used2).chunks && lo <= x < hi ==> x == lo || x == mid
  {}

  /** Once the chunks inside the stretch are tagged, all are. */
  lemma TagsAround(l: Layout, l': Layout, m: Memory, m': Memory, lo: nat, hi: nat, used: bool, heads: set<nat>)
    requires LayoutOk(l) && TagsOk(l, m) && Stretch(l, lo, hi) && LayoutOk(l') && Around(l, l', lo, hi)
    requires forall x :: x in l'.chunks && lo <= x < hi ==> HeadOk(l', m', x) && AfterOk(l', m', x)
    requires Pinuse(Get(m', Head(lo))) == Pinuse(Get(m, Head(lo)))
    requires SameTag(Get(m, Head(hi)), Get(m', Head(hi)), used)
    requires TagsKept(l', m, m', heads, {hi}) && forall h :: h in heads ==> lo <= h <= hi
    ensures TagsOk(l', m')
  {
    hide LayoutOk, TagsOk, Around, Pinuse, Get, SameTag, TagsKept, HeadOk, AfterOk, Stretch, IsTag;
    forall x | x in l'.chunks && (x < lo || hi <= x) ensures HeadOk(l', m', x) && AfterOk(l', m', x) {
      KeptTags(l, l', m, m', lo, hi, used, heads, x);
    }
    RestTags(l, l', m, m', lo, hi, used, heads);
    TagsAll(l', m');
  }

  lemma TagsAt(l: Layout, m: Memory, lo: nat, hi: nat, used: bool)
    requires lo < hi && lo in l.chunks && l.chunks[lo] == Chunk(hi - lo, used)
    requires IsTag(Get(m, Head(lo)), hi - lo, used) && Pinuse(Get(m, Head(hi))) == used
    requires !used ==> Get(m, Foot(hi)) == hi - lo
    ensures HeadOk(l, m, lo) && AfterOk(l, m, lo)
  {
    assert lo + l.chunks[lo].size == hi;
    hide IsTag, Pinuse, Get;
  }

  lemma TagsAll(l: Layout, m: Memory)
    requires LayoutOk(l) && forall x :: x in l.chunks ==> HeadOk(l, m, x) && AfterOk(l, m, x)
    requires Pinuse(Get(m, Head(l.base)))
    requires l.top <= l.end && IsTag(Get(m, Head(l.top)), l.end - l.top, false)
    requires Get(m, Head(l.end)) == TOP_FOOT
    ensures TagsOk(l, m)
  {
    hide HeadOk, AfterOk, IsTag, Pinuse, Get;
  }

  lemma EdgeHead(l: Layout, m: Memory, m': Memory, hi: nat, used: bool)
    requires LayoutOk(l) && TagsOk(l, m) && InRow(l, hi) && SameTag(Get(m, Head(hi)), Get(m', Head(hi)), used)
    ensures Pinuse(Get(m', Head(hi))) == used
    ensures hi in l.chunks ==> IsTag(Get(m', Head(hi)), l.chunks[hi].size, l.chunks[hi].used)
    ensures hi == l.top ==> IsTag(Get(m', Head(hi)), l.end - l.top, false)
  {
    if hi in l.chunks {
      assert HeadOk(l, m, hi) && ChunkOk(l, hi);
      SameTagOk(Get(m, Head(hi)), Get(m', Head(hi)), used, l.chunks[hi].size, l.chunks[hi].used);
    } else {
      Aligned(l.end, l.top);
      SameTagOk(Get(m, Head(hi)), Get(m', Head(hi)), used, l.end - l.top, false);
    }
    TopNotChunk(l);
  }

  lemma TopNotChunk(l: Layout)
    requires LayoutOk(l)
    ensures l.top !in l.chunks && l.end !in l.chunks
    ensures forall x :: x in l.chunks ==> x < l.top
  {
    forall x | x in l.chunks ensures x < l.top { assert ChunkOk(l, x); }
  }

  /** l' has the chunks of l outside the stretch [lo, hi). */
  ghost predicate Around(l: Layout, l': Layout, lo: nat, hi: nat) {
    && l'.base == l.base && l'.top == l.top && l'.end == l.end && lo in l'.chunks
    && (forall x :: x in l'.chunks && (x < lo || hi <= x) ==> x in l.chunks && l'.chunks[x] == l.chunks[x])
    && (forall x :: x in l.chunks && (x < lo || hi <= x) ==> x in l'.chunks)
  }

  /** A chunk outside the stretch keeps its tags. */
  lemma KeptTags(l: Layout, l': Layout, m: Memory, m': Memory, lo: nat, hi: nat, used: bool, heads: set<nat>, x: nat)
    requires LayoutOk(l) && TagsOk(l, m) && Stretch(l, lo, hi) && LayoutOk(l') && Around(l, l', lo, hi)
    requires x in l'.chunks && (x < lo || hi <= x)
    requires Pinuse(Get(m', Head(lo))) == Pinuse(Get(m, Head(lo)))
    requires SameTag(Get(m, Head(hi)), Get(m', Head(hi)), used)
    requires TagsKept(l', m, m', heads, {hi}) && forall h :: h in heads ==> lo <= h <= hi
    ensures HeadOk(l', m', x) && AfterOk(l', m', x)
  {
    hide Tag, IsTag, Pinuse, Get, SameTag;
    assert HeadOk(l, m, x) && AfterOk(l, m, x) && ChunkOk(l, x) && ChunkOk(l', x);
    if x == hi { EdgeHead(l, m, m', hi, used); }
    var n := x + l.chunks[x].size;
    if x < lo { EndsBefore(l, x, lo); }
    assert Live(l', Head(x)) && Live(l', Head(n));
    if !l.chunks[x].used {
      assert Live(l', Foot(n)) by { FootAfterFree(l', x); }
    }
  }

  lemma FootAfterFree(l: Layout, x: nat)
    requires LayoutOk(l) && FreeAt(l, x)
    ensures Live(l, Foot(x + l.chunks[x].size))
  {
    var n := x + l.chunks[x].size;
    assert ChunkOk(l, x);
    forall y | y in l.chunks && l.chunks[y].used ensures y + l.chunks[y].size != n {
      assert ChunkOk(l, y);
      assert x < y ==> Apart(l, x, y);
      assert y < x ==> Apart(l, y, x);
    }
  }

  /** The tags of the edges of the heap. */
  lemma RestTags(l: Layout, l': Layout, m: Memory, m': Memory, lo: nat, hi: nat, used: bool, heads: set<nat>)
    requires LayoutOk(l) && TagsOk(l, m) && Stretch(l, lo, hi) && LayoutOk(l') && Around(l, l', lo, hi)
    requires Pinuse(Get(m', Head(lo))) == Pinuse(Get(m, Head(lo)))
    requires SameTag(Get(m, Head(hi)), Get(m', Head(hi)), used)
    requires TagsKept(l', m, m', heads, {hi}) && forall h :: h in heads ==> lo <= h <= hi
    ensures Pinuse(Get(m', Head(l'.base)))
    ensures l'.top <= l'.end && IsTag(Get(m', Head(l'.top)), l'.end - l'.top, false)
    ensures Get(m', Head(l'.end)) == TOP_FOOT
  {
    hide Tag, IsTag, Pinuse, Get, SameTag;
    StretchEdges(l, lo, hi);
    EdgeHead(l, m, m', hi, used);
    TopNotChunk(l);
    assert Live(l', Head(l.base)) && Live(l', Head(l.top)) && Live(l', Head(l.end));
  }

  lemma TwoKeeps(l: Layout, lo: nat, mid: nat, hi: nat, used1: bool, used2: bool)
    requires lo < mid < hi
    ensures var l' := Two(l, lo, mid, hi, used1, used2);
      && l'.base == l.base && l'.top == l.top && l'.end == l.end
      && lo in l'.chunks && l'.chunks[lo] == Chunk(mid - lo, used1)
      && mid in l'.chunks && l'.chunks[mid] == Chunk(hi - mid, used2)
      && (forall x ::
          x in l'.chunks && x != lo && x != mid ==> x in l.chunks && (x < lo || hi <= x) && l'.chunks[x] == l.chunks[x])
      && (forall y :: y in l.chunks && (y < lo || hi <= y) ==> y in l'.chunks && l'.chunks[y] == l.chunks[y])
  {}

  /** Tags after the stretch [lo, hi) has become a used chunk and a second one. */
  lemma TwoTags(l: Layout, lo: nat, mid: nat, hi: nat, used: bool, m: Memory, m': Memory)
    requires LayoutOk(l) && TagsOk(l, m) && Stretch(l, lo, hi)
    requires lo + MIN_CHUNK <= mid && mid + MIN_CHUNK <= hi && mid % 16 == 0
    requires Get(m', Head(lo)) == Tag(mid - lo, true, Pinuse(Get(m, Head(lo))))
    requires Get(m', Head(mid)) == Tag(hi - mid, used, true)
    requires SameTag(Get(m, Head(hi)), Get(m', Head(hi)), used)
    requires !used ==> Get(m', Foot(hi)) == hi - mid
    requires TagsKept(Two(l, lo, mid, hi, true, used), m, m', {lo, mid, hi}, {hi})
    ensures TagsOk(Two(l, lo, mid, hi, true, used), m')
  {
    hide TagsOk, LayoutOk, Stretch, Two, Outside, Get, Tag, IsTag, Pinuse, SameTag, HeadOk, AfterOk, TagsKept, Around,
      InRow;
    var l' := Two(l, lo, mid, hi, true, used);
    TwoOk(l, lo, mid, hi, true, used);
    StretchEdges(l, lo, hi);
    Aligned(mid, lo);
    Aligned(hi, mid);
    TagPinuse(mid - lo, true, Pinuse(Get(m, Head(lo))));
    TagPinuse(hi - mid, used, true);
    TwoKeeps(l, lo, mid, hi, true, used);
    EdgeHeadOf(l, m, m', lo, hi, used);
    TagsAt(l', m', lo, mid, true);
    TagsAt(l', m', mid, hi, used);
    TwoAround(l, lo, mid, hi, true, used);
    TagsAround(l, l', m, m', lo, hi, used, {lo, mid, hi});
  }

  lemma EdgeHeadOf(l: Layout, m: Memory, m': Memory, lo: nat, hi: nat, used: bool)
    requires LayoutOk(l) && TagsOk(l, m) && Stretch(l, lo, hi) && SameTag(Get(m, Head(hi)), Get(m', Head(hi)), used)
    ensures Pinuse(Get(m', Head(hi))) == used
  {
    EdgeHead(l, m, m', hi, used);
  }

  // ----- tags at the top

  /** A chunk whose neighbours' tags are untouched keeps its own. */
  lemma UntouchedTags(l: Layout, l': Layout, m: Memory, m': Memory, heads: set<nat>, x: nat)
    requires LayoutOk(l) && TagsOk(l, m) && LayoutOk(l')
    requires x in l.chunks && x in l'.chunks && l'.chunks[x] == l.chunks[x]
    requires x !in heads || Get(m', Head(x)) == Get(m, Head(x))
    requires var n := x + l.chunks[x].size; Pinuse(Get(m', Head(n))) == Pinuse(Get(m, Head(n)))
    requires TagsKept(l', m, m', heads, {})
    ensures HeadOk(l', m', x) && AfterOk(l', m', x)
  {
    hide Tag, IsTag, Pinuse, Get;
    assert HeadOk(l, m, x) && AfterOk(l, m, x) && ChunkOk(l', x);
    assert Live(l', Head(x));
    if !l.chunks[x].used { FootAfterFree(l', x); }
  }

  lemma TopGiveKeeps(l: Layout, lo: nat)
    requires LayoutOk(l) && lo in l.chunks
    ensures var l' := TopGive(l, lo);
      && l'.base == l.base && l'.top == lo && l'.end == l.end && lo < l.top
      && (forall x ::
          x in l'.chunks ==> x in l.chunks && x < lo && l'.chunks[x] == l.chunks[x] && x + l.chunks[x].size <= lo)
      && (forall x :: x in l.chunks && x < lo ==> x in l'.chunks)
  {
    assert ChunkOk(l, lo);
    forall x | x in l.chunks ensures x < l.top && (x < lo ==> x + l.chunks[x].size <= lo) {
      assert ChunkOk(l, x);
      if x < lo { EndsBefore(l, x, lo); }
    }
  }

  /** Tags after everything from lo on has become part of top. */
  lemma TopGiveTags(l: Layout, lo: nat, m: Memory, m': Memory)
    requires LayoutOk(l) && TagsOk(l, m) && lo in l.chunks && l.end >= lo
    requires Get(m', Head(lo)) == Tag(l.end - lo, false, Pinuse(Get(m, Head(lo))))
    requires TagsKept(TopGive(l, lo), m, m', {lo}, {})
    ensures TagsOk(TopGive(l, lo), m')
  {
    hide Tag, IsTag, Pinuse, Get, TagsKept, TopGive, HeadOk, AfterOk, LayoutOk, TagsOk, InRow;
    var l' := TopGive(l, lo);
    TopGiveOk(l, lo);
    TopGiveKeeps(l, lo);
    LoBeforeEnd(l, lo);
    Aligned(l.end, lo);
    TagPinuse(l.end - lo, false, Pinuse(Get(m, Head(lo))));
    forall x | x in l'.chunks ensures HeadOk(l', m', x) && AfterOk(l', m', x) {
      NextRow(l', x);
      HeadKept(l', m, m', {lo}, {}, x + l.chunks[x].size);
      UntouchedTags(l, l', m, m', {lo}, x);
    }
    HeadKept(l', m, m', {lo}, {}, l'.end);
    BaseEnd(l, m);
    RowBase(l', m, m', {lo}, {});
    TagsAll(l', m');
  }

  lemma LoBeforeEnd(l: Layout, lo: nat)
    requires LayoutOk(l) && lo in l.chunks
    ensures lo % 16 == 0 && l.end % 16 == 0 && lo < l.end
  {
    assert ChunkOk(l, lo);
  }

  lemma NextRow(l: Layout, x: nat)
    requires LayoutOk(l) && x in l.chunks
    ensures InRow(l, x + l.chunks[x].size)
  {
    assert ChunkOk(l, x);
  }

  lemma BaseEnd(l: Layout, m: Memory)
    requires TagsOk(l, m)
    ensures Pinuse(Get(m, Head(l.base))) && Get(m, Head(l.end)) == TOP_FOOT
  {}

  lemma RowBase(l: Layout, m: Memory, m': Memory, heads: set<nat>, feet: set<nat>)
    requires LayoutOk(l) && TagsKept(l, m, m', heads, feet) && Pinuse(Get(m, Head(l.base)))
    requires forall h :: h in heads ==> Pinuse(Get(m', Head(h))) == Pinuse(Get(m, Head(h)))
    ensures Pinuse(Get(m', Head(l.base)))
  {
    HeadKept(l, m, m', heads, feet, l.base);
    hide Pinuse, Get;
  }

  lemma HeadKept(l: Layout, m: Memory, m': Memory, heads: set<nat>, feet: set<nat>, x: nat)
    requires TagsKept(l, m, m', heads, feet)
    ensures InRow(l, x) || x == l.end ==> x in heads || Get(m', Head(x)) == Get(m, Head(x))
  {
    hide Get;
    assert InRow(l, x) || x == l.end ==> Live(l, Head(x));
  }

  lemma TopTakeKeeps(l: Layout, n: nat)
    requires LayoutOk(l)
    ensures var l' := TopTake(l, n);
      && l'.base == l.base && l'.top == l.top + n && l'.end == l.end
      && l.top in l'.chunks && l'.chunks[l.top] == Chunk(n, true)
      && (forall x :: x in l'.chunks && x != l.top ==>
          x in l.chunks && l'.chunks[x] == l.chunks[x] && x + l.chunks[x].size <= l.top && x < l.top)
      && (forall x :: x in l.chunks ==> x in l'.chunks && l'.chunks[x] == l.chunks[x])
  {
    forall x | x in l.chunks ensures x + l.chunks[x].size <= l.top && x < l.top { assert ChunkOk(l, x); }
  }

  /** Tags after the first n bytes of top have become a used chunk. */
  lemma TopTakeTags(l: Layout, n: nat, m: Memory, m': Memory)
    requires LayoutOk(l) && TagsOk(l, m) && n % 16 == 0 && MIN_CHUNK <= n && l.top + n < l.end
    requires Get(m', Head(l.top)) == Tag(n, true, Pinuse(Get(m, Head(l.top))))
    requires Get(m', Head(l.top + n)) == Tag(l.end - (l.top + n), false, true)
    requires TagsKept(TopTake(l, n), m, m', {l.top, l.top + n}, {})
    ensures TagsOk(TopTake(l, n), m')
  {
    hide Tag, IsTag, Pinuse, Get, TagsKept, TopTake, HeadOk, AfterOk, LayoutOk, TagsOk, InRow;
    TopEnd(l);
    Aligned(l.top, n);
    Aligned(l.end, l.top + n);
    TagPinuse(l.end - (l.top + n), false, true);
    TagPinuse(n, true, Pinuse(Get(m, Head(l.top))));
    var l' := TopTake(l, n);
    TopTakeOk(l, n);
    TopTakeKeeps(l, n);
    TagsAt(l', m', l.top, l.top + n, true);
    forall x | x in l'.chunks && x != l.top ensures HeadOk(l', m', x) && AfterOk(l', m', x) {
      TopTakeKept(l, n, m, m', x);
    }
    HeadKept(l', m, m', {l.top, l.top + n}, {}, l'.end);
    BaseEnd(l, m);
    BaseBelow(l, n);
    BaseRow(l');
    HeadKept(l', m, m', {l.top, l.top + n}, {}, l'.base);
    TagsAll(l', m');
  }

  lemma TopTakeKept(l: Layout, n: nat, m: Memory, m': Memory, x: nat)
    requires LayoutOk(l) && TagsOk(l, m) && LayoutOk(TopTake(l, n)) && n > 0 && x in TopTake(l, n).chunks && x != l.top
    requires Pinuse(Get(m', Head(l.top))) == Pinuse(Get(m, Head(l.top)))
    requires TagsKept(TopTake(l, n), m, m', {l.top, l.top + n}, {})
    ensures HeadOk(TopTake(l, n), m', x) && AfterOk(TopTake(l, n), m', x)
  {
    var l' := TopTake(l, n);
    TopTakeKeeps(l, n);
    hide Tag, IsTag, Pinuse, Get, TagsKept, TopTake, HeadOk, AfterOk, LayoutOk, TagsOk, InRow;
    NextRow(l', x);
    HeadKept(l', m, m', {l.top, l.top + n}, {}, x + l.chunks[x].size);
    UntouchedTags(l, l', m, m', {l.top, l.top + n}, x);
  }

  lemma TopEnd(l: Layout)
    requires LayoutOk(l)
    ensures l.top % 16 == 0 && l.end % 16 == 0 && l.top < l.end && l.base <= l.top
  {}

  lemma BaseBelow(l: Layout, n: nat)
    requires LayoutOk(l) && n > 0
    ensures l.base != l.top + n
  {}

  lemma BaseRow(l: Layout)
    requires LayoutOk(l)
    ensures InRow(l, l.base)
  {}

  /** Tags after the segment has grown by n bytes. */
  lemma GrowTags(l: Layout, n: nat, m: Memory, m': Memory)
    requires LayoutOk(l) && TagsOk(l, m) && n % 16 == 0 && n > 0 && l.end + n + TOP_FOOT <= l.base + ARENA
    requires Get(m', Head(l.top)) == Tag(l.end + n - l.top, false, Pinuse(Get(m, Head(l.top))))
    requires Get(m', Head(l.end + n)) == TOP_FOOT
    requires TagsKept(Grow(l, n), m, m', {l.top, l.end + n}, {})
    ensures TagsOk(Grow(l, n), m')
  {
    hide Tag, IsTag, Pinuse, Get, TagsKept, HeadOk, AfterOk, LayoutOk, TagsOk, InRow;
    TopEnd(l);
    Aligned(l.end, n);
    Aligned(l.end + n, l.top);
    TagPinuse(l.end + n - l.top, false, Pinuse(Get(m, Head(l.top))));
    var l' := Grow(l, n);
    GrowOk(l, n);
    forall x | x in l'.chunks ensures HeadOk(l', m', x) && AfterOk(l', m', x) {
      NextRow(l', x);
      BelowTop(l, x);
      HeadKept(l', m, m', {l.top, l.end + n}, {}, x + l.chunks[x].size);
      UntouchedTags(l, l', m, m', {l.top, l.end + n}, x);
    }
    BaseEnd(l, m);
    BaseRow(l');
    HeadKept(l', m, m', {l.top, l.end + n}, {}, l'.base);
    TagsAll(l', m');
  }

  lemma BelowTop(l: Layout, x: nat)
    requires LayoutOk(l) && x in l.chunks
    ensures x < l.top && x + l.chunks[x].size <= l.top
  {
    assert ChunkOk(l, x);
  }

  /** The chunk in front of top is never free. */
  lemma TopPinuse(l: Layout, m: Memory)
    requires LayoutOk(l) && TagsOk(l, m) && NoAdjacentFree(l)
    ensures Pinuse(Get(m, Head(l.top)))
  {
    PinuseTells(l, m, l.top);
    hide Pinuse, Get, TagsOk;
    if !Pinuse(Get(m, Head(l.top))) {
      var y := l.top - Get(m, Foot(l.top));
      assert Fenced(l, y);
      TopNotChunk(l);
    }
  }

  /** A free chunk is preceded by a used one or starts the heap. */
  lemma FreePinuse(l: Layout, m: Memory, x: nat)
    requires LayoutOk(l) && TagsOk(l, m) && NoAdjacentFree(l) && FreeAt(l, x)
    ensures Pinuse(Get(m, Head(x)))
  {
    PinuseTells(l, m, x);
    hide Pinuse, Get, TagsOk;
    assert forall y: nat :: FreeAt(l, y) ==> Fenced(l, y);
  }
}
