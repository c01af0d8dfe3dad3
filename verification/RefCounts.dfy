/**
 * The counts of the memory manager as they are kept: in a search tree. What the operations on pages do to a map of
 * counts, these do to the tree.
 */
module RefCounts {
  import opened Basics
  import opened AvlSpec
  import Avl
  import opened PageWorld
  import opened PageRange
  import opened PageBooks

  datatype Change = Up(page: nat) | Down(page: nat)

  /** The counts after one change. */
  function Changed(c: map<nat, nat>, x: Change): map<nat, nat> {
    match x
    case Up(page) => c[page := Count(c, page) + 1]
    case Down(page) => Lowered(c, page)
  }

  function AllChanged(c: map<nat, nat>, xs: seq<Change>): map<nat, nat>
    decreases |xs|
  {
    if xs == [] then c else Changed(AllChanged(c, xs[..|xs| - 1]), xs[|xs| - 1])
  }

  /** The pages that are counted no more, one for every time that happens. */
  function LetGo(c: map<nat, nat>, xs: seq<Change>): seq<nat>
    decreases |xs|
  {
    if xs == [] then []
    else
      var init, x := xs[..|xs| - 1], xs[|xs| - 1];
      LetGo(c, init) + if x.Down? && Count(AllChanged(c, init), x.page) == 1 then [x.page] else []
  }

  class Counts {
    const tree: Avl.AvlTree<nat, nat>

    ghost predicate Valid()
      reads tree, Avl.Nodes(tree.shape)
    {
      tree.Valid()
    }

    ghost function Counted(): map<nat, nat>
      reads tree, Avl.Nodes(tree.shape)
    {
      tree.Pairs()
    }

    constructor (cmp: Comparator<nat>)
      requires TotalOrder(cmp)
      ensures Valid() && Counted() == map[] && fresh(tree) && Avl.Nodes(tree.shape) == {}
    {
      tree := new Avl.AvlTree<nat, nat>(cmp);
    }

    /** What the tree says of a page; nothing stored means zero. */
    method Current(page: nat) returns (n: nat)
      requires Valid()
      ensures n == Count(Counted(), page)
    {
      var found := tree.Search(page);
      n := match found case None => 0 case Some(x) => x;
    }

    method Increment(page: nat)
      requires Valid()
      modifies tree, Avl.Nodes(tree.shape)
      ensures Valid() && Raised(old(Counted()), Counted(), page)
      ensures forall x :: x in Avl.Nodes(tree.shape) ==> x in old(Avl.Nodes(tree.shape)) || fresh(x)
    {
      assert allocated(Avl.Nodes(tree.shape));
      var current := Current(page);
      var _ := tree.Insert(page, current + 1);
    }

    /** Counts one reference less; whether it was the last one comes back. */
    method Decrement(page: nat) returns (last: bool)
      requires Valid()
      modifies tree, Avl.Nodes(tree.shape)
      ensures Valid() && Counted() == Lowered(old(Counted()), page) && (last <==> Count(old(Counted()), page) == 1)
      ensures forall x :: x in Avl.Nodes(tree.shape) ==> x in old(Avl.Nodes(tree.shape)) || fresh(x)
    {
      assert allocated(Avl.Nodes(tree.shape));
      var current := Current(page);
      if current == 0 {
        return false;
      } else if current > 1 {
        var _ := tree.Insert(page, current - 1);
        return false;
      } else {
        var _, _ := tree.Remove(page);
        return true;
      }
    }

    /** For every sequence of changes the tree holds the counts, and the pages let go are the right ones. */
    method Run(xs: seq<Change>) returns (freed: seq<nat>)
      requires Valid()
      modifies tree, Avl.Nodes(tree.shape)
      ensures Valid() && Counted() == AllChanged(old(Counted()), xs) && freed == LetGo(old(Counted()), xs)
      ensures forall x :: x in Avl.Nodes(tree.shape) ==> x in old(Avl.Nodes(tree.shape)) || fresh(x)
    {
      hide Valid, Counted, Lowered, Count;
      freed := [];
      ghost var c := Counted();
      for i := 0 to |xs|
        invariant Valid() && Counted() == AllChanged(c, xs[..i]) && freed == LetGo(c, xs[..i])
        invariant forall x :: x in Avl.Nodes(tree.shape) ==> x in old(Avl.Nodes(tree.shape)) || fresh(x)
      {
        assert xs[..i + 1][..i] == xs[..i] && xs[..i + 1][i] == xs[i];
        match xs[i] {
          case Up(page) =>
            Increment(page);
          case Down(page) =>
            var last := Decrement(page);
            if last { freed := freed + [page]; }
        }
      }
      assert xs[..|xs|] == xs;
    }
  }
}
