/**
 * Four-level page tables in physical memory, as section 4.5 of the Intel SDM Volume 3A lays them out, and
 * the list of unused pages that is threaded through those pages themselves.
 */
module PageTables {
  import opened Basics
  import opened Words

  const PAGE: nat := 0x1000
  const NX: nat := 0x8000_0000_0000_0000
  const MAP_DEFAULT: nat := 0x7
  const MAP_DATA: nat := 0x3 + NX
  const MAP_CODE: nat := 0x5
  const SPAN: nat := 0x1_0000_0000_0000
  const KMEM_BASE_ADDR: nat := 0xffff_ffff_ffa0_0000

  // ----- entries

  predicate Present(e: nat) {
    e % 2 == 1
  }

  /** The low twelve bits masked off: the page of an address, or the table an entry points to. */
  function Floor(a: nat): nat {
    a / PAGE * PAGE
  }

  /** The page an entry maps: the low twelve bits and the no-execute bit masked off. */
  function PageOf(e: nat): nat {
    e % NX / PAGE * PAGE
  }

  predicate IsPage(p: nat) {
    p % PAGE == 0 && p < NX
  }

  predicate IsFlags(f: nat) {
    f < PAGE || NX <= f < NX + PAGE
  }

  /** An entry keeps its page and its flags apart. */
  lemma EntryFields(p: nat, f: nat)
    requires IsPage(p) && IsFlags(f)
    ensures PageOf(p + f) == p && Present(p + f) == Present(f)
    ensures f < PAGE ==> Floor(p + f) == p
  {
    var k, g := p / PAGE, if f < PAGE then f else f - NX;
    assert p == PAGE * k && k < NX / PAGE;
    assert (p + f) % NX == p + g by { Remainder(p + f, NX, if f < PAGE then 0 else 1, p + g); }
    PageDivides(k, g);
    Halves(PAGE / 2 * k, f);
  }

  lemma PageDivides(k: nat, g: nat)
    requires g < PAGE
    ensures (PAGE * k + g) / PAGE == k
  {}

  lemma Halves(k: nat, f: nat)
    ensures (2 * k + f) % 2 == f % 2
  {}

  lemma PageAligned(e: nat)
    ensures IsPage(PageOf(e)) && Floor(e) % PAGE == 0
  {
    PageTimes(e % NX / PAGE);
    PageTimes(e / PAGE);
  }

  lemma PageTimes(k: nat)
    ensures k * PAGE % PAGE == 0
  {}

  // ----- the walk

  function Shift(level: nat): nat {
    if level == 0 then 0x80_0000_0000 else if level == 1 then 0x4000_0000 else if level == 2 then 0x20_0000 else 0x1000
  }

  function Index(va: nat, level: nat): (i: nat)
    ensures i < 512
  {
    va / Shift(level) % 512
  }

  /** The address of the entry for va in the table of the given level, if the walk gets there. */
  function PagingAddr(m: Memory, root: nat, va: nat, level: nat): Option<nat> {
    if level == 0 then Some(root + 8 * Index(va, 0))
    else
      match PagingAddr(m, root, va, level - 1)
      case None => None
      case Some(prev) =>
        var entry := Load(m, prev);
        if !Present(entry) then None else Some(Floor(entry) + 8 * Index(va, level))
  }

  /** The entry a virtual address is mapped by. */
  function Translate(m: Memory, root: nat, va: nat): Option<nat> {
    match PagingAddr(m, root, va, 3)
    case None => None
    case Some(a) => if Present(Load(m, a)) then Some(Load(m, a)) else None
  }

  /** Mapped as code, for the user and not writable, or else as data, writable and not executable. */
  predicate Guarded(m: Memory, root: nat, a: nat, code: bool) {
    var t := Translate(m, root, a);
    t.Some? && if code then t.value % 0x1000 == 5 && t.value < 0x8000_0000_0000_0000
      else t.value % 0x1000 == 3 && t.value >= 0x8000_0000_0000_0000
  }

  lemma CodeBits(e: nat)
    requires e == PageOf(e) + MAP_CODE
    ensures e % 0x1000 == 5 && e < 0x8000_0000_0000_0000
  {
    PageAligned(e);
    var k := PageOf(e) / PAGE;
    assert PageOf(e) == PAGE * k;
    FlagBits(k, 5);
  }

  lemma DataBits(e: nat)
    requires e == PageOf(e) + MAP_DATA
    ensures e % 0x1000 == 3 && e >= 0x8000_0000_0000_0000
  {
    PageAligned(e);
    var k := PageOf(e) / PAGE;
    assert e == PAGE * (k + 0x8_0000_0000_0000) + 3;
    FlagBits(k + 0x8_0000_0000_0000, 3);
  }

  lemma FlagBits(k: nat, f: nat)
    requires f < PAGE
    ensures (PAGE * k + f) % PAGE == f
  {
    PageDivides(k, f);
  }

  /** The walk depends only on the entries it reads. */
  lemma {:induction false} WalkFrame(m: Memory, m': Memory, root: nat, va: nat, level: nat)
    requires forall j :: 0 <= j < level && PagingAddr(m, root, va, j).Some? ==>
      Load(m', PagingAddr(m, root, va, j).value) == Load(m, PagingAddr(m, root, va, j).value)
    ensures PagingAddr(m', root, va, level) == PagingAddr(m, root, va, level)
    decreases level
  {
    if level > 0 {
      WalkFrame(m, m', root, va, level - 1);
      assert PagingAddr(m, root, va, level - 1).Some? ==>
        Load(m', PagingAddr(m, root, va, level - 1).value) == Load(m, PagingAddr(m, root, va, level - 1).value);
    }
  }

  // ----- positions

  /**
   * A place in the tree of a root: the indices taken so far. Up to three of them name a table, four an entry of a
   * page.
   */
  datatype Pos = Pos(root: nat, path: seq<nat>)

  function Up(p: Pos): Pos
    requires |p.path| > 0
  {
    Pos(p.root, p.path[..|p.path| - 1])
  }

  function Last(p: Pos): nat
    requires |p.path| > 0
  {
    p.path[|p.path| - 1]
  }

  function Down(p: Pos, i: nat): Pos {
    Pos(p.root, p.path + [i])
  }

  /** The position reached after the first n indices of va. */
  function At(root: nat, va: nat, n: nat): (p: Pos)
    ensures |p.path| == n && p.root == root
    decreases n
  {
    if n == 0 then Pos(root, []) else Down(At(root, va, n - 1), Index(va, n - 1))
  }

  lemma DownUp(p: Pos, i: nat)
    ensures Up(Down(p, i)) == p && Last(Down(p, i)) == i && |Down(p, i).path| == |p.path| + 1
  {
    assert (p.path + [i])[..|p.path|] == p.path;
  }

  lemma UpDown(p: Pos)
    requires |p.path| > 0
    ensures Down(Up(p), Last(p)) == p
  {
    assert p.path == p.path[..|p.path| - 1] + [Last(p)];
  }

  // ----- tables and unused pages

  /**
   * tabs: the tables that belong to one place each. foreign: places whose entry leads to a table that is
   * shared and not followed here. free: the pages on the list, in order.
   */
  datatype World = World(tabs: map<Pos, nat>, foreign: set<Pos>, free: seq<nat>)

  /** Tables are distinct pages and hang from tables, up to a root. */
  ghost predicate TabsOk(w: World) {
    && (forall p :: p in w.tabs ==> |p.path| <= 3 && IsPage(w.tabs[p]))
    && (forall p :: p in w.tabs && |p.path| == 0 ==> w.tabs[p] == p.root)
    && (forall p {:trigger Up(p)} :: p in w.tabs && |p.path| > 0 ==> Up(p) in w.tabs && Last(p) < 512)
    && (forall p, q :: p in w.tabs && q in w.tabs && w.tabs[p] == w.tabs[q] ==> p == q)
  }

  ghost predicate ForeignOk(w: World) {
    forall q :: q in w.foreign ==> q !in w.tabs && 1 <= |q.path| <= 3 && Up(q) in w.tabs && Last(q) < 512
  }

  /** The word of entry i of the table at p. */
  ghost function Word(m: Memory, w: World, p: Pos, i: nat): nat
    requires p in w.tabs
  {
    Load(m, w.tabs[p] + 8 * i)
  }

  /** The entry leads where the position says. */
  ghost predicate EntryOk(m: Memory, w: World, p: Pos, i: nat)
    requires p in w.tabs
  {
    var e := Word(m, w, p, i);
    if Down(p, i) in w.tabs then Present(e) && Floor(e) == w.tabs[Down(p, i)] && e < NX
    else if Down(p, i) in w.foreign then Present(e) && Floor(e) !in w.tabs.Values && Floor(e) !in w.free && e < NX
    else !Present(e)
  }

  ghost predicate EntriesOk(m: Memory, w: World) {
    forall p, i {:trigger EntryOk(m, w, p, i)} :: p in w.tabs && |p.path| < 3 && 0 <= i < 512 ==> EntryOk(m, w, p, i)
  }

  /** What page k of the list is found from: the page itself, or null behind the last one. */
  ghost function PageOn(free: seq<nat>, k: nat): nat {
    if k < |free| then free[k] else 0
  }

  /** The list starts at last; each unused page holds the next one in its first word, the last one null. */
  ghost predicate Chained(m: Memory, last: nat, free: seq<nat>) {
    && last == PageOn(free, 0)
    && (forall k {:trigger free[k]} :: 0 <= k < |free| ==> Load(m, free[k]) == PageOn(free, k + 1))
  }

  /** The pages on the list are different pages, none of them null. */
  ghost predicate Listed(m: Memory, last: nat, free: seq<nat>) {
    Distinct(free) && Chained(m, last, free) && forall f :: f in free ==> IsPage(f) && f != 0
  }

  ghost predicate FreeOk(m: Memory, last: nat, w: World) {
    Listed(m, last, w.free) && forall f :: f in w.free ==> f !in w.tabs.Values
  }

  ghost predicate WorldOk(m: Memory, last: nat, w: World) {
    TabsOk(w) && ForeignOk(w) && EntriesOk(m, w) && FreeOk(m, last, w)
  }

  /** The walk for va stays within the tables of the world, as far as it goes, down to a level. */
  ghost predicate OwnTo(w: World, root: nat, va: nat, level: nat) {
    Pos(root, []) in w.tabs && forall n {:trigger At(root, va, n)} :: 0 < n <= level ==> At(root, va, n) !in w.foreign
  }

  ghost predicate Own(w: World, root: nat, va: nat) {
    OwnTo(w, root, va, 3)
  }

  /** The walk of the source finds the entry exactly when the tables on the way exist. */
  lemma {:induction false} WalkTells(m: Memory, w: World, root: nat, va: nat, level: nat)
    requires TabsOk(w) && EntriesOk(m, w) && OwnTo(w, root, va, level) && level <= 3
    ensures PagingAddr(m, root, va, level) ==
      if At(root, va, level) in w.tabs then Some(w.tabs[At(root, va, level)] + 8 * Index(va, level)) else None
    decreases level
  {
    if level > 0 {
      WalkTells(m, w, root, va, level - 1);
      var p, i := At(root, va, level - 1), Index(va, level - 1);
      DownUp(p, i);
      assert At(root, va, level) == Down(p, i) && At(root, va, level) !in w.foreign;
      hide *;
      EntryTells(m, w, p, i);
      assert PagingAddr(m, root, va, level) == Onward(m, PagingAddr(m, root, va, level - 1), Index(va, level)) by {
        WalkOn(m, root, va, level);
      }
      OnwardIs(m, w, p, i, PagingAddr(m, root, va, level - 1), Index(va, level));
    }
  }

  /** One step of the walk, from the address of an entry. */
  function Onward(m: Memory, a: Option<nat>, i: nat): Option<nat> {
    match a
    case None => None
    case Some(prev) => if !Present(Load(m, prev)) then None else Some(Floor(Load(m, prev)) + 8 * i)
  }

  lemma WalkOn(m: Memory, root: nat, va: nat, level: nat)
    requires level > 0
    ensures PagingAddr(m, root, va, level) == Onward(m, PagingAddr(m, root, va, level - 1), Index(va, level))
  {
    hide Index, Load;
  }

  /** An entry that is not shared is present exactly if it leads to a table of the world. */
  lemma EntryTells(m: Memory, w: World, p: Pos, i: nat)
    requires TabsOk(w) && EntriesOk(m, w) && |p.path| < 3 && i < 512 && Down(p, i) !in w.foreign
    ensures p in w.tabs ==>
      && (Present(Word(m, w, p, i)) <==> Down(p, i) in w.tabs)
      && (Down(p, i) in w.tabs ==> Floor(Word(m, w, p, i)) == w.tabs[Down(p, i)])
    ensures p !in w.tabs ==> Down(p, i) !in w.tabs
  {
    DownUp(p, i);
    if p in w.tabs { assert EntryOk(m, w, p, i); }
    hide Word, Present, Floor;
  }

  lemma OnwardIs(m: Memory, w: World, p: Pos, i: nat, a: Option<nat>, next: nat)
    requires p in w.tabs ==>
      && (Present(Word(m, w, p, i)) <==> Down(p, i) in w.tabs)
      && (Down(p, i) in w.tabs ==> Floor(Word(m, w, p, i)) == w.tabs[Down(p, i)])
    requires p !in w.tabs ==> Down(p, i) !in w.tabs
    requires a == if p in w.tabs then Some(w.tabs[p] + 8 * i) else None
    ensures Onward(m, a, next) == if Down(p, i) in w.tabs then Some(w.tabs[Down(p, i)] + 8 * next) else None
  {
    hide Present, Floor, Load, Down;
  }

  /** What the tables say about va: the present entry of its page, if any. */
  ghost function Mapped(m: Memory, w: World, q: Pos): Option<nat> {
    if |q.path| == 4 && Up(q) in w.tabs && Present(Word(m, w, Up(q), Last(q))) then Some(Word(m, w, Up(q), Last(q)))
      else None
  }

  lemma TranslateIs(m: Memory, w: World, root: nat, va: nat)
    requires TabsOk(w) && EntriesOk(m, w) && Own(w, root, va)
    ensures Translate(m, root, va) == Mapped(m, w, At(root, va, 4))
  {
    WalkTells(m, w, root, va, 3);
    DownUp(At(root, va, 3), Index(va, 3));
  }

  // ----- where writes land

  /** The word at a lies in one of the pages. */
  predicate InPages(a: nat, pages: set<nat>) {
    Floor(a) in pages
  }

  ghost predicate OnlyIn(m: Memory, m': Memory, pages: set<nat>) {
    forall a: nat {:trigger Load(m', a)} :: !InPages(a, pages) ==> Load(m', a) == Load(m, a)
  }

  lemma SlotInPage(t: nat, i: nat)
    requires t % PAGE == 0 && i < 512
    ensures Floor(t + 8 * i) == t
  {
    assert t == PAGE * (t / PAGE);
    PageDivides(t / PAGE, 8 * i);
  }

  /** Two entries of tables share a word only if they are the same entry. */
  lemma SlotsDistinct(w: World, p: Pos, i: nat, q: Pos, j: nat)
    requires TabsOk(w) && p in w.tabs && q in w.tabs && i < 512 && j < 512
    requires w.tabs[p] + 8 * i == w.tabs[q] + 8 * j
    ensures p == q && i == j
  {
    SlotInPage(w.tabs[p], i);
    SlotInPage(w.tabs[q], j);
  }
}
