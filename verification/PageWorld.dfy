/**
 * The single steps on page tables and on the list of unused pages, what each keeps, and how it changes
 * the entries that refer to a page.
 */
module PageWorld {
  import opened Basics
  import opened Words
  import opened PageTables

  /** Writes outside the tables and the unused pages change nothing. */
  lemma WorldFrame(m: Memory, m': Memory, last: nat, w: World, pages: set<nat>)
    requires WorldOk(m, last, w) && OnlyIn(m, m', pages)
    requires pages !! w.tabs.Values && forall f :: f in w.free ==> f !in pages
    ensures WorldOk(m', last, w)
    ensures forall p, i: nat {:trigger Word(m', w, p, i)} ::
      p in w.tabs && i < 512 ==> Word(m', w, p, i) == Word(m, w, p, i)
  {
    forall p, i: nat | p in w.tabs && i < 512 ensures Word(m', w, p, i) == Word(m, w, p, i) {
      TableValue(w, p);
      SlotInPage(w.tabs[p], i);
    }
    hide InPages;
    forall p, i | p in w.tabs && |p.path| < 3 && 0 <= i < 512 ensures EntryOk(m', w, p, i) {
      assert EntryOk(m, w, p, i);
    }
    ChainFrame(m, m', last, w, pages);
  }

  lemma TableValue(w: World, p: Pos)
    requires TabsOk(w) && p in w.tabs
    ensures w.tabs[p] in w.tabs.Values && w.tabs[p] % PAGE == 0
  {}

  lemma ChainFrame(m: Memory, m': Memory, last: nat, w: World, pages: set<nat>)
    requires FreeOk(m, last, w) && OnlyIn(m, m', pages)
    requires forall f :: f in w.free ==> f !in pages
    ensures FreeOk(m', last, w)
  {
    forall k | 0 <= k < |w.free| ensures Load(m', w.free[k]) == PageOn(w.free, k + 1) {
      FirstWord(w.free[k]);
      assert w.free[k] in w.free;
    }
  }

  lemma FirstWord(f: nat)
    requires IsPage(f)
    ensures Floor(f) == f
  {
    SlotInPage(f, 0);
  }

  // ----- the list

  /** The list without its first page. */
  ghost function Popped(w: World): World
    requires |w.free| > 0
  {
    w.(free := w.free[1..])
  }

  /** p is a page that neither holds a table nor is on the list, and no entry for a shared table leads to it. */
  ghost predicate Loose(m: Memory, w: World, p: nat) {
    && IsPage(p) && p != 0 && p !in w.tabs.Values && p !in w.free
    && (forall q, i {:trigger Down(q, i)} ::
        q in w.tabs && 0 <= i < 512 && Down(q, i) in w.foreign ==> Floor(Word(m, w, q, i)) != p)
  }

  lemma PopOk(m: Memory, last: nat, w: World)
    requires WorldOk(m, last, w) && |w.free| > 0
    ensures last == w.free[0] && WorldOk(m, Load(m, last), Popped(w)) && Loose(m, Popped(w), last)
  {
    hide *;
    WorldParts(m, last, w);
    PopChain(m, last, w);
    PoppedIs(w);
    SameTabs(w, Popped(w));
    forall p, i | p in w.tabs && |p.path| < 3 && 0 <= i < 512 ensures EntryOk(m, Popped(w), p, i) {
      PoppedEntry(m, last, w, p, i);
    }
    AssembleWorld(m, Load(m, last), Popped(w));
    PoppedLoose(m, last, w);
  }

  lemma WorldParts(m: Memory, last: nat, w: World)
    requires WorldOk(m, last, w)
    ensures TabsOk(w) && ForeignOk(w) && EntriesOk(m, w) && FreeOk(m, last, w)
  {}

  lemma PoppedIs(w: World)
    requires |w.free| > 0
    ensures Popped(w).tabs == w.tabs && Popped(w).foreign == w.foreign
  {}

  lemma PoppedEntry(m: Memory, last: nat, w: World, p: Pos, i: nat)
    requires WorldOk(m, last, w) && |w.free| > 0 && p in w.tabs && |p.path| < 3 && i < 512
    ensures EntryOk(m, Popped(w), p, i)
  {
    assert EntryOk(m, w, p, i);
    hide WorldOk, Floor, Present;
    forall f | f in Popped(w).free ensures f in w.free { assert f in w.free[1..]; }
  }

  lemma PoppedLoose(m: Memory, last: nat, w: World)
    requires WorldOk(m, last, w) && |w.free| > 0 && last == w.free[0] && last !in Popped(w).free
    ensures Loose(m, Popped(w), last)
  {
    assert last in w.free;
    hide EntriesOk, Chained, TabsOk;
    forall q, i | q in w.tabs && 0 <= i < 512 && Down(q, i) in w.foreign ensures Floor(Word(m, w, q, i)) != last {
      SharedElsewhere(m, last, w, q, i, last);
    }
  }

  /** A shared place leads to no page on the list. */
  lemma SharedElsewhere(m: Memory, last: nat, w: World, q: Pos, i: nat, f: nat)
    requires WorldOk(m, last, w) && q in w.tabs && i < 512 && Down(q, i) in w.foreign && f in w.free
    ensures Floor(Word(m, w, q, i)) != f
  {
    assert |Down(q, i).path| == |q.path| + 1;
    assert EntryOk(m, w, q, i);
  }

  lemma SameTabs(w: World, w': World)
    requires TabsOk(w) && ForeignOk(w) && w'.tabs == w.tabs && w'.foreign == w.foreign
    ensures TabsOk(w') && ForeignOk(w')
  {
    forall p | p in w'.tabs && |p.path| > 0 ensures Up(p) in w'.tabs && Last(p) < 512 {}
  }

  lemma PopChain(m: Memory, last: nat, w: World)
    requires FreeOk(m, last, w) && |w.free| > 0
    ensures last == w.free[0] && IsPage(last) && last != 0 && last !in w.tabs.Values && last in w.free
    ensures FreeOk(m, Load(m, last), Popped(w)) && last !in Popped(w).free
  {
    var w' := Popped(w);
    assert w.free[0] in w.free;
    forall f | f in w'.free ensures f in w.free && f != w.free[0] {
      var k :| 0 <= k < |w'.free| && w'.free[k] == f;
      assert w.free[k + 1] == f;
    }
    forall k | 0 <= k < |w'.free| ensures Load(m, w'.free[k]) == PageOn(w'.free, k + 1) {
      assert w.free[k + 1] == w'.free[k];
    }
    assert Load(m, w.free[0]) == PageOn(w.free, 1);
  }

  /** The list with p in front. */
  ghost function Pushed(w: World, p: nat): World {
    w.(free := [p] + w.free)
  }

  lemma PushOk(m: Memory, last: nat, w: World, p: nat)
    requires WorldOk(m, last, w) && Loose(m, w, p)
    ensures WorldOk(m[p := last], p, Pushed(w, p))
  {
    LooseAfter(m, last, w, p);
    hide *;
    PushedWorld(m[p := last], last, w, p);
  }

  /** A page nothing leads to may be written. */
  lemma LooseAfter(m: Memory, last: nat, w: World, p: nat)
    requires WorldOk(m, last, w) && Loose(m, w, p)
    ensures WorldOk(m[p := last], last, w) && Loose(m[p := last], w, p) && Load(m[p := last], p) == last
  {
    var m' := m[p := last];
    FirstWord(p);
    assert OnlyIn(m, m', {p});
    hide WorldOk;
    WorldFrame(m, m', last, w, {p});
    forall q, i | q in w.tabs && 0 <= i < 512 && Down(q, i) in w.foreign ensures Floor(Word(m', w, q, i)) != p {
      assert Word(m', w, q, i) == Word(m, w, q, i);
    }
  }

  lemma PushedWorld(m: Memory, last: nat, w: World, p: nat)
    requires WorldOk(m, last, w) && Loose(m, w, p) && Load(m, p) == last
    ensures WorldOk(m, p, Pushed(w, p))
  {
    var w' := Pushed(w, p);
    SameTabs(w, w');
    PushChain(m, last, w, p);
    forall q, i | q in w.tabs && |q.path| < 3 && 0 <= i < 512 ensures EntryOk(m, w', q, i) {
      PushedEntry(m, last, w, p, q, i);
    }
    hide *;
    AssembleWorld(m, p, w');
  }

  lemma PushedEntry(m: Memory, last: nat, w: World, p: nat, q: Pos, i: nat)
    requires WorldOk(m, last, w) && Loose(m, w, p) && q in w.tabs && |q.path| < 3 && i < 512
    ensures EntryOk(m, Pushed(w, p), q, i)
  {
    assert EntryOk(m, w, q, i);
    hide WorldOk;
  }

  lemma PushChain(m: Memory, last: nat, w: World, p: nat)
    requires FreeOk(m, last, w) && IsPage(p) && p != 0 && p !in w.free && p !in w.tabs.Values && Load(m, p) == last
    ensures FreeOk(m, p, Pushed(w, p))
  {
    var w' := Pushed(w, p);
    forall k | 0 <= k < |w'.free| ensures Load(m, w'.free[k]) == PageOn(w'.free, k + 1) {
      if k > 0 { assert w'.free[k] == w.free[k - 1]; }
    }
  }

  // ----- a new table

  ghost function AddTable(w: World, q: Pos, t: nat): World {
    w.(tabs := w.tabs[q := t])
  }

  /** Entry i of the table at p is empty and t, all zero, is to be linked there. */
  ghost predicate TableReady(m: Memory, w: World, p: Pos, i: nat, t: nat) {
    && p in w.tabs && |p.path| < 3 && i < 512 && Down(p, i) !in w.tabs && Down(p, i) !in w.foreign
    && Loose(m, w, t) && forall j :: 0 <= j < 512 ==> Load(m, t + 8 * j) == 0
  }

  lemma AddTableOk(m: Memory, last: nat, w: World, p: Pos, i: nat, t: nat)
    requires WorldOk(m, last, w) && TableReady(m, w, p, i, t)
    ensures WorldOk(m[w.tabs[p] + 8 * i := t + MAP_DEFAULT], last, AddTable(w, Down(p, i), t))
  {
    var q := Down(p, i);
    var m', w' := m[w.tabs[p] + 8 * i := t + MAP_DEFAULT], AddTable(w, q, t);
    DownUp(p, i);
    AddTabs(w, p, i, t);
    EntryFields(t, MAP_DEFAULT);
    forall x, j | x in w'.tabs && |x.path| < 3 && 0 <= j < 512 ensures EntryOk(m', w', x, j) {
      AddTableEntry(m, last, w, p, i, t, x, j);
    }
    assert FreeOk(m', last, w') by {
      AddTableFree(m, last, w, p, i, t);
    }
    hide WorldOk, FreeOk, EntriesOk, EntryOk;
    assert ForeignOk(w');
    AssembleWorld(m', last, w');
  }

  lemma AssembleWorld(m: Memory, last: nat, w: World)
    requires TabsOk(w) && ForeignOk(w) && FreeOk(m, last, w)
    requires forall p, i {:trigger EntryOk(m, w, p, i)} ::
      p in w.tabs && |p.path| < 3 && 0 <= i < 512 ==> EntryOk(m, w, p, i)
    ensures WorldOk(m, last, w)
  {
    hide TabsOk, ForeignOk, FreeOk, EntryOk;
  }

  lemma AddTabs(w: World, p: Pos, i: nat, t: nat)
    requires TabsOk(w) && p in w.tabs && |p.path| < 3 && i < 512 && Down(p, i) !in w.tabs && IsPage(t)
    requires t !in w.tabs.Values
    ensures TabsOk(AddTable(w, Down(p, i), t)) && AddTable(w, Down(p, i), t).tabs.Values == w.tabs.Values + {t}
  {
    var q := Down(p, i);
    var w' := AddTable(w, q, t);
    DownUp(p, i);
    forall x | x in w'.tabs && |x.path| > 0 ensures Up(x) in w'.tabs && Last(x) < 512 {
      assert x != q ==> x in w.tabs && Up(x) in w.tabs;
    }
    forall x, y | x in w'.tabs && y in w'.tabs && w'.tabs[x] == w'.tabs[y] ensures x == y {
      if x in w.tabs && x != q { TableValue(w, x); }
      if y in w.tabs && y != q { TableValue(w, y); }
    }
    assert w'.tabs.Values == w.tabs.Values + {t} by {
      forall v | v in w.tabs.Values + {t} ensures v in w'.tabs.Values {
        if v in w.tabs.Values {
          var x :| x in w.tabs && w.tabs[x] == v;
          assert w'.tabs[x] == v;
        } else {
          assert w'.tabs[q] == v;
        }
      }
    }
  }

  lemma AddTableEntry(m: Memory, last: nat, w: World, p: Pos, i: nat, t: nat, x: Pos, j: nat)
    requires WorldOk(m, last, w) && TableReady(m, w, p, i, t)
    requires x in AddTable(w, Down(p, i), t).tabs && |x.path| < 3 && j < 512
    requires AddTable(w, Down(p, i), t).tabs.Values == w.tabs.Values + {t}
    ensures EntryOk(m[w.tabs[p] + 8 * i := t + MAP_DEFAULT], AddTable(w, Down(p, i), t), x, j)
  {
    var q := Down(p, i);
    var m', w' := m[w.tabs[p] + 8 * i := t + MAP_DEFAULT], AddTable(w, q, t);
    DownUp(p, i);
    DownUp(x, j);
    EntryFields(t, MAP_DEFAULT);
    TableValue(w, p);
    SlotInPage(w.tabs[p], i);
    if x == q {
      SlotInPage(t, j);
      NoneBelow(w, q, j);
      assert Word(m', w', x, j) == 0;
    } else {
      assert EntryOk(m, w, x, j);
      if w.tabs[x] + 8 * j == w.tabs[p] + 8 * i {
        SlotsDistinct(w, x, j, p, i);
      }
    }
  }

  /** Below an absent table there are no tables and no shared places that matter. */
  lemma NoneBelow(w: World, q: Pos, j: nat)
    requires TabsOk(w) && ForeignOk(w) && q !in w.tabs
    ensures Down(q, j) !in w.tabs && Down(q, j) !in w.foreign
  {
    DownUp(q, j);
  }

  lemma AddTableFree(m: Memory, last: nat, w: World, p: Pos, i: nat, t: nat)
    requires WorldOk(m, last, w) && TableReady(m, w, p, i, t)
    requires AddTable(w, Down(p, i), t).tabs.Values == w.tabs.Values + {t}
    ensures FreeOk(m[w.tabs[p] + 8 * i := t + MAP_DEFAULT], last, AddTable(w, Down(p, i), t))
  {
    EntryWriteFree(m, last, w, p, i, t + MAP_DEFAULT);
    hide TabsOk, EntriesOk, ForeignOk, Chained;
  }

  /** Writing an entry leaves the list alone. */
  lemma EntryWriteFree(m: Memory, last: nat, w: World, p: Pos, i: nat, e: nat)
    requires TabsOk(w) && FreeOk(m, last, w) && p in w.tabs && i < 512
    ensures FreeOk(m[w.tabs[p] + 8 * i := e], last, w)
  {
    TableValue(w, p);
    SlotInPage(w.tabs[p], i);
    assert OnlyIn(m, m[w.tabs[p] + 8 * i := e], {w.tabs[p]});
    FreeApart(m, last, w, w.tabs[p]);
    hide *;
    ChainFrame(m, m[w.tabs[p] + 8 * i := e], last, w, {w.tabs[p]});
  }

  lemma FreeApart(m: Memory, last: nat, w: World, t: nat)
    requires FreeOk(m, last, w) && t in w.tabs.Values
    ensures forall f :: f in w.free ==> f !in {t}
  {}

  /** The new table maps nothing yet. */
  lemma AddTableMaps(m: Memory, last: nat, w: World, p: Pos, i: nat, t: nat, x: Pos)
    requires WorldOk(m, last, w) && TableReady(m, w, p, i, t) && (|x.path| > 0 ==> Last(x) < 512)
    ensures Mapped(m[w.tabs[p] + 8 * i := t + MAP_DEFAULT], AddTable(w, Down(p, i), t), x) == Mapped(m, w, x)
  {
    var q := Down(p, i);
    DownUp(p, i);
    TableValue(w, p);
    SlotInPage(w.tabs[p], i);
    if |x.path| == 4 {
      if Up(x) == q {
        SlotInPage(t, Last(x));
      } else if Up(x) in w.tabs && w.tabs[Up(x)] + 8 * Last(x) == w.tabs[p] + 8 * i {
        SlotsDistinct(w, Up(x), Last(x), p, i);
      }
    }
  }

  // ----- writing the entry of a page

  lemma LeafOk(m: Memory, last: nat, w: World, p: Pos, i: nat, e: nat)
    requires WorldOk(m, last, w) && p in w.tabs && |p.path| == 3 && i < 512
    ensures WorldOk(m[w.tabs[p] + 8 * i := e], last, w)
  {
    var m' := m[w.tabs[p] + 8 * i := e];
    forall x, j | x in w.tabs && |x.path| < 3 && 0 <= j < 512 ensures EntryOk(m', w, x, j) {
      assert EntryOk(m, w, x, j);
      if w.tabs[x] + 8 * j == w.tabs[p] + 8 * i { SlotsDistinct(w, x, j, p, i); }
      hide TabsOk, FreeOk;
    }
    EntryWriteFree(m, last, w, p, i, e);
    hide TabsOk, ForeignOk, EntryOk, FreeOk;
  }

  /** Only the page at that entry is mapped differently. */
  lemma LeafMaps(m: Memory, last: nat, w: World, p: Pos, i: nat, e: nat, x: Pos)
    requires WorldOk(m, last, w) && p in w.tabs && |p.path| == 3 && i < 512 && (|x.path| > 0 ==> Last(x) < 512)
    ensures Mapped(m[w.tabs[p] + 8 * i := e], w, x) == if x == Down(p, i) then if Present(e) then Some(e) else None
      else Mapped(m, w, x)
  {
    DownUp(p, i);
    if |x.path| == 4 && Up(x) in w.tabs {
      UpDown(x);
      if w.tabs[Up(x)] + 8 * Last(x) == w.tabs[p] + 8 * i { SlotsDistinct(w, Up(x), Last(x), p, i); }
    }
  }

  // ----- the words of the tables

  /** No word of a table changes but that of entry i of the table at p. */
  ghost predicate WordsBut(m: Memory, m': Memory, w: World, p: Pos, i: nat) {
    forall q, j: nat {:trigger Word(m', w, q, j)} :: q in w.tabs && j < 512 && (q != p || j != i) ==>
      Word(m', w, q, j) == Word(m, w, q, j)
  }

  lemma EntryWords(m: Memory, m1: Memory, w: World, pages: set<nat>, p: Pos, i: nat, e: nat)
    requires TabsOk(w) && p in w.tabs && i < 512 && OnlyIn(m, m1, pages) && pages !! w.tabs.Values
    ensures WordsBut(m, m1[w.tabs[p] + 8 * i := e], w, p, i)
  {
    var m' := m1[w.tabs[p] + 8 * i := e];
    forall q, j: nat | q in w.tabs && j < 512 && (q != p || j != i) ensures Word(m', w, q, j) == Word(m, w, q, j) {
      if w.tabs[q] + 8 * j == w.tabs[p] + 8 * i { SlotsDistinct(w, q, j, p, i); }
      TableValue(w, q);
      SlotInPage(w.tabs[q], j);
      assert Load(m1, w.tabs[q] + 8 * j) == Load(m, w.tabs[q] + 8 * j);
    }
  }

  lemma MapsFrame(m: Memory, m': Memory, w: World, x: Pos)
    requires forall p, i: nat {:trigger Word(m', w, p, i)} ::
      p in w.tabs && i < 512 ==> Word(m', w, p, i) == Word(m, w, p, i)
    requires |x.path| > 0 ==> Last(x) < 512
    ensures Mapped(m', w, x) == Mapped(m, w, x)
  {
    hide Word;
  }

  // ----- what an operation leaves of the mapping

  predicate EntryPos(x: Pos) {
    |x.path| > 0 ==> Last(x) < 512
  }

  /** Every page is mapped as before. */
  ghost predicate MapsKept(m: Memory, w: World, m': Memory, w': World) {
    forall x {:trigger Mapped(m', w', x)} :: EntryPos(x) ==> Mapped(m', w', x) == Mapped(m, w, x)
  }

  /** The pages the world may write: its tables and its unused pages. */
  ghost function Reach(w: World): set<nat> {
    w.tabs.Values + set f | f in w.free
  }

  /** w' has the tables of w, and otherwise only tables on the walk of va, taken from the front of the list. */
  ghost predicate Grown(w: World, w': World, root: nat, va: nat) {
    && w'.foreign == w.foreign
    && (forall p :: p in w.tabs ==> p in w'.tabs && w'.tabs[p] == w.tabs[p])
    && (forall p :: p in w'.tabs && p !in w.tabs ==> exists n {:trigger At(root, va, n)} ::
        0 < n <= 3 && p == At(root, va, n))
    && |w'.free| <= |w.free| && w'.free == w.free[|w.free| - |w'.free|..]
    && Reach(w') == Reach(w)
  }

  lemma GrownSelf(w: World, root: nat, va: nat)
    ensures Grown(w, w, root, va)
  {}

  lemma GrownStep(w: World, w1: World, root: nat, va: nat, n: nat, t: nat)
    requires Grown(w, w1, root, va) && |w1.free| > 0 && t == w1.free[0] && 0 < n <= 3 && At(root, va, n) !in w1.tabs
    ensures Grown(w, AddTable(Popped(w1), At(root, va, n), t), root, va)
    ensures |AddTable(Popped(w1), At(root, va, n), t).free| == |w1.free| - 1
  {
    var w' := AddTable(Popped(w1), At(root, va, n), t);
    ReachStep(w1, At(root, va, n), t);
    hide Reach, At;
    forall p | p in w.tabs ensures p in w'.tabs && w'.tabs[p] == w.tabs[p] { assert p in w1.tabs; }
  }

  lemma ReachStep(w: World, q: Pos, t: nat)
    requires |w.free| > 0 && t == w.free[0] && q !in w.tabs
    ensures Reach(AddTable(Popped(w), q, t)) == Reach(w)
  {
    var w' := AddTable(Popped(w), q, t);
    forall v | v in Reach(w') ensures v in Reach(w) {
      if v in w'.tabs.Values {
        var p :| p in w'.tabs && w'.tabs[p] == v;
        if p != q { assert v in w.tabs.Values; } else { assert v in w.free; }
      } else {
        assert v in w.free[1..];
      }
    }
    forall v | v in Reach(w) ensures v in Reach(w') {
      if v in w.tabs.Values {
        var p :| p in w.tabs && w.tabs[p] == v;
        assert w'.tabs[p] == v;
      } else if v == t {
        assert w'.tabs[q] == v;
      } else {
        assert v in w.free[1..];
      }
    }
  }

  lemma OnlyInWrite(m: Memory, m': Memory, pages: set<nat>, t: nat, i: nat, v: nat)
    requires OnlyIn(m, m', pages) && t in pages && t % PAGE == 0 && i < 512
    ensures OnlyIn(m, m'[t + 8 * i := v], pages)
  {
    SlotInPage(t, i);
    forall a: nat | !InPages(a, pages) ensures Load(m'[t + 8 * i := v], a) == Load(m, a) {
      assert Load(m', a) == Load(m, a);
    }
  }

  lemma OnlyInWider(m: Memory, m': Memory, a: set<nat>, b: set<nat>)
    requires OnlyIn(m, m', a) && a <= b
    ensures OnlyIn(m, m', b)
  {
    hide Load;
    forall x: nat | !InPages(x, b) ensures Load(m', x) == Load(m, x) { assert !InPages(x, a); }
  }

  lemma OnlyInMore(m: Memory, m1: Memory, m': Memory, a: set<nat>, b: set<nat>)
    requires OnlyIn(m, m1, a) && OnlyIn(m1, m', b) && b <= a
    ensures OnlyIn(m, m', a)
  {
    hide Load;
    forall x: nat | !InPages(x, a) ensures Load(m', x) == Load(m, x) {
      assert !InPages(x, b);
      assert Load(m1, x) == Load(m, x);
    }
  }

  lemma MapsTwice(m: Memory, w: World, m1: Memory, w1: World, m': Memory, w': World)
    requires MapsKept(m, w, m1, w1) && MapsKept(m1, w1, m', w')
    ensures MapsKept(m, w, m', w')
  {
    hide Mapped, EntryPos;
  }

  /** Taking a page off the list and clearing it. */
  lemma TakenPage(m: Memory, last: nat, w: World, m': Memory)
    requires WorldOk(m, last, w) && |w.free| > 0 && OnlyIn(m, m', {last})
    requires forall j :: 0 <= j < 512 ==> Load(m', last + 8 * j) == 0
    ensures WorldOk(m', Load(m, last), Popped(w)) && Loose(m', Popped(w), last)
    ensures MapsKept(m, w, m', Popped(w))
  {
    PopOk(m, last, w);
    var w' := Popped(w);
    LooseApart(m, w', last);
    WorldFrame(m, m', Load(m, last), w', {last});
    hide WorldOk, Word;
    forall x | EntryPos(x) ensures Mapped(m', w', x) == Mapped(m, w, x) {
      MapsFrame(m, m', w', x);
      SameTabsMaps(m, w, w', x);
    }
  }

  lemma LooseApart(m: Memory, w: World, p: nat)
    requires Loose(m, w, p)
    ensures {p} !! w.tabs.Values && forall f :: f in w.free ==> f !in {p}
  {}

  lemma SameTabsMaps(m: Memory, w: World, w': World, x: Pos)
    requires w'.tabs == w.tabs
    ensures Mapped(m, w', x) == Mapped(m, w, x)
  {}

  /** The whole step: a page taken, cleared and linked as the table at Down(p, i). */
  lemma TableAdded(m: Memory, last: nat, w: World, m1: Memory, p: Pos, i: nat)
    requires WorldOk(m, last, w) && |w.free| > 0 && OnlyIn(m, m1, {last})
    requires forall j :: 0 <= j < 512 ==> Load(m1, last + 8 * j) == 0
    requires p in w.tabs && |p.path| < 3 && i < 512 && Down(p, i) !in w.tabs && Down(p, i) !in w.foreign
    ensures var m', w' := m1[w.tabs[p] + 8 * i := last + MAP_DEFAULT], AddTable(Popped(w), Down(p, i), last);
      && WorldOk(m', Load(m, last), w') && MapsKept(m, w, m', w') && WordsBut(m, m', w, p, i)
      && OnlyIn(m, m', Reach(w)) && last == w.free[0] && IsPage(last) && last !in w.tabs.Values
  {
    hide *;
    TakenReady(m, last, w, m1, p, i);
    TakenWords(m, last, w, m1, p, i, last + MAP_DEFAULT);
    PopOk(m, last, w);
    TakenPage(m, last, w, m1);
    WrittenReach(m, last, w, m1, p, i, last + MAP_DEFAULT);
    AddTableOk(m1, Load(m, last), Popped(w), p, i, last);
    LinkedMaps(m, w, m1, Load(m, last), Popped(w), p, i, last);
  }

  lemma TakenReady(m: Memory, last: nat, w: World, m1: Memory, p: Pos, i: nat)
    requires WorldOk(m, last, w) && |w.free| > 0 && OnlyIn(m, m1, {last})
    requires forall j :: 0 <= j < 512 ==> Load(m1, last + 8 * j) == 0
    requires p in w.tabs && |p.path| < 3 && i < 512 && Down(p, i) !in w.tabs && Down(p, i) !in w.foreign
    ensures Popped(w).tabs == w.tabs && TableReady(m1, Popped(w), p, i, last)
  {
    hide WorldOk, Word, Mapped, Loose, OnlyIn, Load, Down;
    TakenPage(m, last, w, m1);
  }

  lemma TakenWords(m: Memory, last: nat, w: World, m1: Memory, p: Pos, i: nat, e: nat)
    requires WorldOk(m, last, w) && |w.free| > 0 && OnlyIn(m, m1, {last}) && p in w.tabs && i < 512
    ensures WordsBut(m, m1[w.tabs[p] + 8 * i := e], w, p, i)
  {
    PopChain(m, last, w);
    hide FreeOk, OnlyIn, WordsBut;
    EntryWords(m, m1, w, {last}, p, i, e);
  }

  lemma LinkedMaps(m: Memory, w: World, m1: Memory, last: nat, w1: World, p: Pos, i: nat, t: nat)
    requires WorldOk(m1, last, w1) && TableReady(m1, w1, p, i, t) && MapsKept(m, w, m1, w1)
    ensures MapsKept(m, w, m1[w1.tabs[p] + 8 * i := t + MAP_DEFAULT], AddTable(w1, Down(p, i), t))
  {
    var m', w' := m1[w1.tabs[p] + 8 * i := t + MAP_DEFAULT], AddTable(w1, Down(p, i), t);
    hide WorldOk, AddTable, Mapped, TableReady;
    forall x | EntryPos(x) ensures Mapped(m', w', x) == Mapped(m, w, x) {
      AddTableMaps(m1, last, w1, p, i, t, x);
      assert Mapped(m1, w1, x) == Mapped(m, w, x);
    }
  }

  lemma WrittenReach(m: Memory, last: nat, w: World, m1: Memory, p: Pos, i: nat, e: nat)
    requires WorldOk(m, last, w) && |w.free| > 0 && OnlyIn(m, m1, {last}) && p in w.tabs && i < 512
    ensures OnlyIn(m, m1[w.tabs[p] + 8 * i := e], Reach(w)) && last !in w.tabs.Values && IsPage(last)
  {
    PopChain(m, last, w);
    TableValue(w, p);
    hide WorldOk, OnlyIn;
    assert last in w.free;
    OnlyInWider(m, m1, {last}, Reach(w));
    OnlyInWrite(m, m1, Reach(w), w.tabs[p], i, e);
  }

  /** What may be written for one root: its tables and the unused pages. */
  ghost function RootReach(w: World, root: nat): set<nat> {
    (set p | p in w.tabs && p.root == root :: w.tabs[p]) + set f | f in w.free
  }

  lemma RootReachIn(w: World, root: nat)
    ensures RootReach(w, root) <= Reach(w)
  {}

  lemma RootReachStep(w: World, q: Pos, t: nat)
    requires |w.free| > 0 && t == w.free[0] && q !in w.tabs
    ensures RootReach(AddTable(Popped(w), q, t), q.root) == RootReach(w, q.root)
  {
    var w' := AddTable(Popped(w), q, t);
    assert w.free == [t] + w'.free;
    assert w'.tabs[q] == t;
    forall v | v in RootReach(w, q.root) ensures v in RootReach(w', q.root) {
      if v !in w.free {
        var p :| p in w.tabs && p.root == q.root && w.tabs[p] == v;
        assert w'.tabs[p] == v;
      }
    }
    forall v | v in RootReach(w', q.root) ensures v in RootReach(w, q.root) {
      if v !in w'.free {
        var p :| p in w'.tabs && p.root == q.root && w'.tabs[p] == v;
        assert p != q ==> w.tabs[p] == v;
      }
    }
  }

  /** A page cleared and an entry of a table of p's root written. */
  lemma RootWritten(m: Memory, last: nat, w: World, m1: Memory, p: Pos, i: nat, e: nat)
    requires WorldOk(m, last, w) && |w.free| > 0 && OnlyIn(m, m1, {last}) && p in w.tabs && i < 512
    ensures OnlyIn(m, m1[w.tabs[p] + 8 * i := e], RootReach(w, p.root))
  {
    PopChain(m, last, w);
    TableValue(w, p);
    hide WorldOk, OnlyIn;
    assert last in w.free && w.tabs[p] in RootReach(w, p.root);
    OnlyInWider(m, m1, {last}, RootReach(w, p.root));
    OnlyInWrite(m, m1, RootReach(w, p.root), w.tabs[p], i, e);
  }

  /** A page that holds no table keeps its zeros when an entry is written. */
  lemma StillZero(m: Memory, last: nat, w: World, m1: Memory, p: Pos, i: nat, t: nat, e: nat)
    requires WorldOk(m, last, w) && p in w.tabs && i < 512 && t in w.free
    requires forall j :: 0 <= j < 512 ==> Load(m1, t + 8 * j) == 0
    ensures forall j :: 0 <= j < 512 ==> Load(m1[w.tabs[p] + 8 * i := e], t + 8 * j) == 0
    ensures Load(m1[w.tabs[p] + 8 * i := e], w.tabs[p] + 8 * i) == e
  {
    TableValue(w, p);
    SlotInPage(w.tabs[p], i);
    forall j | 0 <= j < 512 ensures Load(m1[w.tabs[p] + 8 * i := e], t + 8 * j) == 0 { SlotInPage(t, j); }
  }

  lemma LoosePage(m: Memory, w: World, p: nat)
    requires Loose(m, w, p)
    ensures IsPage(p) && p % PAGE == 0
  {}

  lemma KeptSelf(m: Memory, w: World, pages: set<nat>)
    ensures MapsKept(m, w, m, w) && OnlyIn(m, m, pages)
  {}

  lemma WalkTellsOk(m: Memory, last: nat, w: World, root: nat, va: nat, level: nat)
    requires WorldOk(m, last, w) && Own(w, root, va) && level <= 3
    ensures PagingAddr(m, root, va, level) ==
      if At(root, va, level) in w.tabs then Some(w.tabs[At(root, va, level)] + 8 * Index(va, level)) else None
    ensures At(root, va, 0) in w.tabs
  {
    WalkTells(m, w, root, va, level);
  }

  /** The same for a walk that is only to go down to a level. */
  lemma WalkTellsTo(m: Memory, last: nat, w: World, root: nat, va: nat, level: nat, n: nat)
    requires WorldOk(m, last, w) && OwnTo(w, root, va, level) && n <= level <= 3
    ensures PagingAddr(m, root, va, n) == if At(root, va, n) in w.tabs
      then Some(w.tabs[At(root, va, n)] + 8 * Index(va, n)) else None
    ensures At(root, va, 0) in w.tabs
  {
    WalkTells(m, w, root, va, n);
  }

  /** The missing position hangs from the one before it and is not shared. */
  lemma NextPos(w: World, root: nat, va: nat, level: nat, n: nat)
    requires OwnTo(w, root, va, level) && 0 < n <= level <= 3 && At(root, va, n) !in w.tabs
    ensures At(root, va, n) == Down(At(root, va, n - 1), Index(va, n - 1)) && At(root, va, n) !in w.foreign
    ensures |At(root, va, n - 1).path| < 3
  {}

  lemma OwnToGrows(w1: World, w': World, root: nat, va: nat, level: nat)
    requires OwnTo(w1, root, va, level) && w'.foreign == w1.foreign && (forall p :: p in w1.tabs ==> p in w'.tabs)
    ensures OwnTo(w', root, va, level)
  {}

  lemma OwnGrows(w: World, w1: World, w': World, root: nat, va: nat)
    requires Own(w1, root, va) && w'.foreign == w1.foreign && (forall p :: p in w1.tabs ==> p in w'.tabs)
    ensures Own(w', root, va)
  {}

  // ----- entries of pages, packaged

  /** Only the page at q is mapped differently: by e, if that is present. */
  ghost predicate MappedBut(m: Memory, w: World, m': Memory, w': World, q: Pos, e: nat) {
    forall x {:trigger Mapped(m', w', x)} :: EntryPos(x) ==>
      Mapped(m', w', x) == if x == q then (if Present(e) then Some(e) else None) else Mapped(m, w, x)
  }

  lemma LeafWritten(m: Memory, last: nat, w: World, root: nat, va: nat, e: nat)
    requires WorldOk(m, last, w) && At(root, va, 3) in w.tabs
    ensures var m' := m[w.tabs[At(root, va, 3)] + 8 * Index(va, 3) := e];
      && WorldOk(m', last, w) && MappedBut(m, w, m', w, At(root, va, 4), e)
      && WordsBut(m, m', w, At(root, va, 3), Index(va, 3))
      && OnlyIn(m, m', Reach(w))
  {
    var p, i := At(root, va, 3), Index(va, 3);
    var m' := m[w.tabs[p] + 8 * i := e];
    LeafOk(m, last, w, p, i, e);
    assert At(root, va, 4) == Down(p, i);
    LeafReach(m, last, w, p, i, e);
    EntryWords(m, m, w, {}, p, i, e);
    hide WorldOk, Mapped, At, Index, WordsBut;
    forall x | EntryPos(x)
      ensures Mapped(m', w, x) == if x == Down(p, i) then (if Present(e) then Some(e) else None) else Mapped(m, w, x)
    {
      LeafMaps(m, last, w, p, i, e, x);
    }
  }

  lemma LeafReach(m: Memory, last: nat, w: World, p: Pos, i: nat, e: nat)
    requires WorldOk(m, last, w) && p in w.tabs && i < 512
    ensures OnlyIn(m, m[w.tabs[p] + 8 * i := e], Reach(w))
  {
    TableValue(w, p);
    KeptSelf(m, w, Reach(w));
    hide OnlyIn;
    OnlyInWrite(m, m, Reach(w), w.tabs[p], i, e);
  }

  // ----- counts

  function Count(c: map<nat, nat>, p: nat): nat {
    if p in c then c[p] else 0
  }

  /** Small entries are masked alike. */
  lemma SameMask(e: nat)
    requires e < NX
    ensures Floor(e) == PageOf(e)
  {}
}
