/**
 * The search tree behind the scheduler's tables: insertion and removal through the links, with rotations and
 * stored depths. Every method makes of the linked nodes what the functions of AvlPlan make of the tree they are.
 */
module Avl {
  import opened Basics
  import opened AvlSpec
  import opened AvlPlan
  import opened AvlBalance

  class Node<K, V> {
    var left: Node?<K, V>
    var right: Node?<K, V>
    var depth: int
    var key: K
    var data: V

    constructor (k: K, v: V)
      ensures left == null && right == null && depth == 1 && key == k && data == v
    {
      left, right, depth, key, data := null, null, 1, k, v;
    }
  }

  /** The shape of a linked tree: which node is where. */
  datatype Tree<K, V> = Leaf | Branch(node: Node<K, V>, l: Tree<K, V>, r: Tree<K, V>)

  ghost function Top<K, V>(t: Tree<K, V>): Node?<K, V> {
    match t case Leaf => null case Branch(n, _, _) => n
  }

  ghost function Nodes<K, V>(t: Tree<K, V>): set<Node<K, V>> {
    match t case Leaf => {} case Branch(n, l, r) => {n} + Nodes(l) + Nodes(r)
  }

  /** The links of the nodes are those of the shape, and no node is there twice. */
  ghost predicate Linked<K, V>(t: Tree<K, V>)
    reads Nodes(t)
  {
    match t
    case Leaf => true
    case Branch(n, l, r) =>
      && n.left == Top(l) && n.right == Top(r)
      && n !in Nodes(l) && n !in Nodes(r) && Nodes(l) !! Nodes(r)
      && Linked(l) && Linked(r)
  }

  /** The tree as a value. */
  ghost function PlanOf<K, V>(t: Tree<K, V>): Plan<K, V>
    reads Nodes(t)`key, Nodes(t)`data, Nodes(t)`depth
  {
    match t
    case Leaf => Nil
    case Branch(n, l, r) => Fork(PlanOf(l), (n.key, n.data), n.depth, PlanOf(r))
  }

  // ----- taking trees apart and together

  /** What there is to know about a tree: whether links and depths are in order, and its value. */
  datatype View<K, V> = View(ok: bool, plan: Plan<K, V>)

  ghost function Seen<K, V>(t: Tree<K, V>): (v: View<K, V>)
    reads Nodes(t)
    ensures v.ok ==> DepthOk(v.plan)
  {
    View(Linked(t) && DepthOk(PlanOf(t)), PlanOf(t))
  }

  ghost predicate Disjoint<K, V>(n: Node<K, V>, l: Tree<K, V>, r: Tree<K, V>) {
    n !in Nodes(l) && n !in Nodes(r) && Nodes(l) !! Nodes(r)
  }

  /** A node over two trees that are in order; its own depth may be out of date. */
  ghost predicate Headed<K, V>(n: Node<K, V>, l: Tree<K, V>, r: Tree<K, V>)
    reads n, Nodes(l), Nodes(r)
  {
    n.left == Top(l) && n.right == Top(r) && Disjoint(n, l, r) && Seen(l).ok && Seen(r).ok
  }

  ghost function Pair<K, V>(n: Node<K, V>): (K, V)
    reads n
  {
    (n.key, n.data)
  }

  /** A node over two trees as a value. */
  ghost function Drawn<K, V>(n: Node<K, V>, l: Tree<K, V>, r: Tree<K, V>): Plan<K, V>
    reads n, Nodes(l), Nodes(r)
  {
    Fork(Seen(l).plan, Pair(n), n.depth, Seen(r).plan)
  }

  lemma Open<K, V>(t: Tree<K, V>)
    requires Seen(t).ok && t.Branch?
    ensures Headed(t.node, t.l, t.r) && Seen(t).plan == Drawn(t.node, t.l, t.r) && DepthOk(Drawn(t.node, t.l, t.r))
    ensures Nodes(t) == {t.node} + Nodes(t.l) + Nodes(t.r)
  {}

  lemma Join<K, V>(n: Node<K, V>, l: Tree<K, V>, r: Tree<K, V>)
    requires Headed(n, l, r) && DepthOk(Drawn(n, l, r))
    ensures var t := Branch(n, l, r);
      Seen(t) == View(true, Drawn(n, l, r)) && Nodes(t) == {n} + Nodes(l) + Nodes(r)
  {}

  lemma NodesOf<K, V>(n: Node<K, V>, l: Tree<K, V>, r: Tree<K, V>)
    ensures Nodes(Branch(n, l, r)) == {n} + Nodes(l) + Nodes(r) && Seen(Branch(n, l, r)).plan == Drawn(n, l, r)
  {}

  /** What the top link tells of the depth. */
  lemma TopTells<K, V>(t: Tree<K, V>)
    requires Seen(t).ok
    ensures Deep(Seen(t).plan) == (if Top(t) != null then Top(t).depth else 0) >= 0
    ensures (t.Leaf? <==> Deep(Seen(t).plan) == 0) && (t.Leaf? <==> Seen(t).plan.Nil?)
  {
    DeepPositive(Seen(t).plan);
  }

  // ----- depths of one node

  /** Positive where the left side is deeper. */
  function BalanceFactor<K, V>(n: Node<K, V>): (delta: int)
    reads n, n.left, n.right
  {
    (if n.left != null then n.left.depth else 0) - (if n.right != null then n.right.depth else 0)
  }

  /** The difference of the stored depths, so the side that is deeper is not empty. */
  lemma Balance<K, V>(n: Node<K, V>, l: Tree<K, V>, r: Tree<K, V>)
    requires Headed(n, l, r)
    ensures BalanceFactor(n) == Factor(Drawn(n, l, r))
    ensures (BalanceFactor(n) > 0 ==> l.Branch?) && (BalanceFactor(n) < 0 ==> r.Branch?)
  {
    TopTells(l);
    TopTells(r);
  }

  /** Gives a node the depth its children call for: the tree it heads is then in order. */
  method UpdateDepth<K, V>(n: Node<K, V>, ghost l: Tree<K, V>, ghost r: Tree<K, V>) returns (ghost t: Tree<K, V>)
    requires Headed(n, l, r)
    modifies n`depth
    ensures t == Branch(n, l, r) && Nodes(t) == {n} + Nodes(l) + Nodes(r)
    ensures Seen(t) == View(true, old(Lifted(Seen(l).plan, Pair(n), Seen(r).plan)))
  {
    TopTells(l);
    TopTells(r);
    LiftedOk(Seen(l).plan, Pair(n), Seen(r).plan);
    hide Nodes, Linked, PlanOf, DepthOk;
    n.depth := 1;
    if n.left != null {
      n.depth := n.left.depth;
    }
    if n.right != null && n.depth < n.right.depth {
      n.depth := n.right.depth;
    }
    n.depth := n.depth + 1;
    assert Seen(l) == old(Seen(l)) && Seen(r) == old(Seen(r));
    Join(n, l, r);
    t := Branch(n, l, r);
  }

  // ----- rotations

  /** Two nodes and three trees without a node in common, all three in order. */
  ghost predicate Asunder<K, V>(n: Node<K, V>, ch: Node<K, V>, a: Tree<K, V>, b: Tree<K, V>, c: Tree<K, V>)
    reads Nodes(a), Nodes(b), Nodes(c)
  {
    && n != ch && Disjoint(n, a, b) && Disjoint(ch, a, b) && Disjoint(n, a, c) && Disjoint(ch, b, c)
    && Seen(a).ok && Seen(b).ok && Seen(c).ok
  }

  lemma OpenRight<K, V>(n: Node<K, V>, l: Tree<K, V>, r: Tree<K, V>)
    requires Headed(n, l, r) && r.Branch?
    ensures n.right == r.node && Asunder(n, r.node, l, r.l, r.r) && Headed(r.node, r.l, r.r)
    ensures Nodes(r) == {r.node} + Nodes(r.l) + Nodes(r.r) && Seen(r).plan == Drawn(r.node, r.l, r.r)
  {
    Open(r);
    hide Seen;
  }

  lemma OpenLeft<K, V>(n: Node<K, V>, l: Tree<K, V>, r: Tree<K, V>)
    requires Headed(n, l, r) && l.Branch?
    ensures n.left == l.node && Asunder(n, l.node, l.l, l.r, r) && Headed(l.node, l.l, l.r)
    ensures Nodes(l) == {l.node} + Nodes(l.l) + Nodes(l.r) && Seen(l).plan == Drawn(l.node, l.l, l.r)
  {
    Open(l);
    hide Seen;
  }

  /** Swaps the links between a node and its right child: the node is now the child, with its depth up to date. */
  method TurnLeft<K, V>(n: Node<K, V>, ghost a: Tree<K, V>, ghost b: Tree<K, V>, ghost c: Tree<K, V>)
    returns (ch: Node<K, V>, ghost low: Tree<K, V>)
    requires n.right != null && Asunder(n, n.right, a, b, c)
    requires n.left == Top(a) && n.right.left == Top(b) && n.right.right == Top(c)
    modifies n, n.right
    ensures ch == old(n.right) && Headed(ch, low, c) && Nodes(low) == {n} + Nodes(a) + Nodes(b)
    ensures Pair(ch) == old(Pair(n.right)) && Seen(c) == old(Seen(c))
    ensures Seen(low).plan == old(Lifted(Seen(a).plan, Pair(n), Seen(b).plan))
  {
    assert allocated(Nodes(c));
    NodesOf(n, a, b);
    assert Disjoint(n.right, Branch(n, a, b), c);
    hide *;
    ch := SwapLeft(n, a, b, c);
    low := UpdateDepth(n, a, b);
    assert Seen(c) == old(Seen(c));
  }

  /** The links alone. */
  method SwapLeft<K, V>(n: Node<K, V>, ghost a: Tree<K, V>, ghost b: Tree<K, V>, ghost c: Tree<K, V>)
    returns (ch: Node<K, V>)
    requires n.right != null && Asunder(n, n.right, a, b, c)
    requires n.left == Top(a) && n.right.left == Top(b) && n.right.right == Top(c)
    modifies n`right, n.right`left
    ensures ch == old(n.right) && ch.left == n && ch.right == Top(c) && Headed(n, a, b)
    ensures Pair(n) == old(Pair(n)) && Pair(ch) == old(Pair(n.right))
    ensures Seen(a) == old(Seen(a)) && Seen(b) == old(Seen(b)) && Seen(c) == old(Seen(c))
  {
    hide Nodes, Linked, PlanOf, DepthOk, Seen;
    ch := n.right;
    n.right := n.right.left;
    ch.left := n;
    assert Seen(a) == old(Seen(a));
    assert Seen(b) == old(Seen(b));
    assert Seen(c) == old(Seen(c));
  }

  /** Swaps the links between a node and its left child: the node is now the child, with its depth up to date. */
  method TurnRight<K, V>(n: Node<K, V>, ghost a: Tree<K, V>, ghost b: Tree<K, V>, ghost c: Tree<K, V>)
    returns (ch: Node<K, V>, ghost low: Tree<K, V>)
    requires n.left != null && Asunder(n, n.left, a, b, c)
    requires n.left.left == Top(a) && n.left.right == Top(b) && n.right == Top(c)
    modifies n, n.left
    ensures ch == old(n.left) && Headed(ch, a, low) && Nodes(low) == {n} + Nodes(b) + Nodes(c)
    ensures Pair(ch) == old(Pair(n.left)) && Seen(a) == old(Seen(a))
    ensures Seen(low).plan == old(Lifted(Seen(b).plan, Pair(n), Seen(c).plan))
  {
    assert allocated(Nodes(a));
    NodesOf(n, b, c);
    assert Disjoint(n.left, a, Branch(n, b, c));
    hide *;
    ch := SwapRight(n, a, b, c);
    low := UpdateDepth(n, b, c);
    assert Seen(a) == old(Seen(a));
  }

  /** The links alone. */
  method SwapRight<K, V>(n: Node<K, V>, ghost a: Tree<K, V>, ghost b: Tree<K, V>, ghost c: Tree<K, V>)
    returns (ch: Node<K, V>)
    requires n.left != null && Asunder(n, n.left, a, b, c)
    requires n.left.left == Top(a) && n.left.right == Top(b) && n.right == Top(c)
    modifies n`left, n.left`right
    ensures ch == old(n.left) && ch.right == n && ch.left == Top(a) && Headed(n, b, c)
    ensures Pair(n) == old(Pair(n)) && Pair(ch) == old(Pair(n.left))
    ensures Seen(a) == old(Seen(a)) && Seen(b) == old(Seen(b)) && Seen(c) == old(Seen(c))
  {
    hide Nodes, Linked, PlanOf, DepthOk, Seen;
    ch := n.left;
    n.left := n.left.right;
    ch.right := n;
    assert Seen(a) == old(Seen(a));
    assert Seen(b) == old(Seen(b));
    assert Seen(c) == old(Seen(c));
  }

  /** The right child takes the place of the node, which becomes its left child. */
  method RotateLeft<K, V>(n: Node<K, V>, ghost l: Tree<K, V>, ghost r: Tree<K, V>)
    returns (top: Node<K, V>, ghost t: Tree<K, V>)
    requires Headed(n, l, r) && r.Branch?
    modifies n, r.node
    ensures t.Branch? && Top(t) == top && Nodes(t) == {n} + Nodes(l) + Nodes(r) && old(Seen(r).plan.Fork?)
    ensures Seen(t) == View(true, old(RotatedLeft(Seen(l).plan, Pair(n), Seen(r).plan)))
    ensures Flat(Seen(t).plan) == old(Flat(Drawn(n, l, r)))
  {
    OpenRight(n, l, r);
    FlatTurned(Seen(l).plan, Pair(n), Seen(r).plan);
    hide Nodes, Linked, PlanOf, DepthOk, Seen, Asunder, Lifted, Pair, Flat;
    ghost var low;
    top, low := TurnLeft(n, l, r.l, r.r);
    t := UpdateDepth(top, low, r.r);
  }

  /** The left child takes the place of the node, which becomes its right child. */
  method RotateRight<K, V>(n: Node<K, V>, ghost l: Tree<K, V>, ghost r: Tree<K, V>)
    returns (top: Node<K, V>, ghost t: Tree<K, V>)
    requires Headed(n, l, r) && l.Branch?
    modifies n, l.node
    ensures t.Branch? && Top(t) == top && Nodes(t) == {n} + Nodes(l) + Nodes(r) && old(Seen(l).plan.Fork?)
    ensures Seen(t) == View(true, old(RotatedRight(Seen(l).plan, Pair(n), Seen(r).plan)))
    ensures Flat(Seen(t).plan) == old(Flat(Drawn(n, l, r)))
  {
    OpenLeft(n, l, r);
    FlatTurned(Seen(l).plan, Pair(n), Seen(r).plan);
    hide Nodes, Linked, PlanOf, DepthOk, Seen, Asunder, Lifted, Pair, Flat;
    ghost var low;
    top, low := TurnRight(n, l.l, l.r, r);
    t := UpdateDepth(top, l.l, low);
  }

  /** Hangs another tree on the left of a node. */
  method HangLeft<K, V>(n: Node<K, V>, ch: Node?<K, V>, ghost l: Tree<K, V>, ghost r: Tree<K, V>)
    requires Top(l) == ch && n.right == Top(r) && Disjoint(n, l, r) && Seen(l).ok && Seen(r).ok
    modifies n`left
    ensures Headed(n, l, r) && Drawn(n, l, r) == old(Drawn(n, l, r)) && Seen(r) == old(Seen(r))
  {
    n.left := ch;
  }

  /** Hangs another tree on the right of a node. */
  method HangRight<K, V>(n: Node<K, V>, ch: Node?<K, V>, ghost l: Tree<K, V>, ghost r: Tree<K, V>)
    requires n.left == Top(l) && Top(r) == ch && Disjoint(n, l, r) && Seen(l).ok && Seen(r).ok
    modifies n`right
    ensures Headed(n, l, r) && Drawn(n, l, r) == old(Drawn(n, l, r)) && Seen(l) == old(Seen(l))
  {
    n.right := ch;
  }

  /** The left side goes up, after a turn of its own where it leans right. */
  method RaiseLeft<K, V>(n: Node<K, V>, ghost l: Tree<K, V>, ghost r: Tree<K, V>)
    returns (top: Node<K, V>, ghost t: Tree<K, V>)
    requires Headed(n, l, r) && l.Branch?
    modifies {n} + Nodes(l)
    ensures t.Branch? && Top(t) == top && Nodes(t) == {n} + Nodes(l) + Nodes(r)
    ensures old(Seen(l).plan.Fork? && DepthOk(Seen(l).plan))
    ensures Seen(t) == View(true, old(RaisedLeft(Seen(l).plan, Pair(n), Seen(r).plan)))
  {
    Open(l);
    Balance(l.node, l.l, l.r);
    TopTells(l);
    assert allocated(Nodes(r));
    hide Nodes, Linked, PlanOf, DepthOk, Seen, RotatedLeft, RotatedRight;
    ghost var low := l;
    if BalanceFactor(n.left) < 0 {
      var ch;
      ch, low := RotateLeft(n.left, l.l, l.r);
      assert Seen(r) == old(Seen(r));
      HangLeft(n, ch, low, r);
    }
    top, t := RotateRight(n, low, r);
  }

  /** The right side goes up, after a turn of its own where it leans left. */
  method RaiseRight<K, V>(n: Node<K, V>, ghost l: Tree<K, V>, ghost r: Tree<K, V>)
    returns (top: Node<K, V>, ghost t: Tree<K, V>)
    requires Headed(n, l, r) && r.Branch?
    modifies {n} + Nodes(r)
    ensures t.Branch? && Top(t) == top && Nodes(t) == {n} + Nodes(l) + Nodes(r)
    ensures old(Seen(r).plan.Fork? && DepthOk(Seen(r).plan))
    ensures Seen(t) == View(true, old(RaisedRight(Seen(l).plan, Pair(n), Seen(r).plan)))
  {
    Open(r);
    Balance(r.node, r.l, r.r);
    TopTells(r);
    assert allocated(Nodes(l));
    hide Nodes, Linked, PlanOf, DepthOk, Seen, RotatedLeft, RotatedRight;
    ghost var low := r;
    if BalanceFactor(n.right) > 0 {
      var ch;
      ch, low := RotateRight(n.right, r.l, r.r);
      assert Seen(l) == old(Seen(l));
      HangRight(n, ch, l, low);
    }
    top, t := RotateLeft(n, l, low);
  }

  lemma HeadedOk<K, V>(n: Node<K, V>, l: Tree<K, V>, r: Tree<K, V>)
    requires Headed(n, l, r)
    ensures DepthOk(Drawn(n, l, r).l) && DepthOk(Drawn(n, l, r).r)
  {}

  /** Rotates where the stored depths of the children differ by exactly two. */
  method Rebalance<K, V>(n: Node<K, V>, ghost l: Tree<K, V>, ghost r: Tree<K, V>)
    returns (top: Node<K, V>, ghost l': Tree<K, V>, ghost r': Tree<K, V>)
    requires Headed(n, l, r)
    modifies {n} + Nodes(l) + Nodes(r)
    ensures old(DepthOk(Drawn(n, l, r).l) && DepthOk(Drawn(n, l, r).r))
    ensures Headed(top, l', r') && Drawn(top, l', r') == Rebalanced(old(Drawn(n, l, r)))
    ensures Flat(Drawn(top, l', r')) == old(Flat(Drawn(n, l, r)))
    ensures {top} + Nodes(l') + Nodes(r') == {n} + Nodes(l) + Nodes(r)
  {
    HeadedOk(n, l, r);
    FlatRebalanced(Drawn(n, l, r));
    Balance(n, l, r);
    TopTells(l);
    TopTells(r);
    hide Nodes, Linked, PlanOf, DepthOk, Seen, Headed, BalanceFactor, RaisedLeft, RaisedRight, Flat;
    var delta := BalanceFactor(n);
    top, l', r' := n, l, r;
    ghost var t;
    if delta == 2 {
      top, t := RaiseLeft(n, l, r);
      Open(t);
      l', r' := t.l, t.r;
    } else if delta == -2 {
      top, t := RaiseRight(n, l, r);
      Open(t);
      l', r' := t.l, t.r;
    }
  }

  // ----- insertion

  /** Rotates where that is called for, then brings the depth of the node on top up to date. */
  method Settle<K, V>(n: Node<K, V>, ghost l: Tree<K, V>, ghost r: Tree<K, V>)
    returns (top: Node<K, V>, ghost t: Tree<K, V>)
    requires Headed(n, l, r)
    modifies {n} + Nodes(l) + Nodes(r)
    ensures Top(t) == top && Nodes(t) == {n} + Nodes(l) + Nodes(r)
    ensures old(DepthOk(Drawn(n, l, r).l) && DepthOk(Drawn(n, l, r).r))
    ensures Seen(t) == View(true, Settled(old(Drawn(n, l, r))))
  {
    hide Nodes, Linked, PlanOf, DepthOk, Seen, Headed, Rebalanced, Lifted, Pair;
    ghost var l', r';
    top, l', r' := Rebalance(n, l, r);
    t := UpdateDepth(top, l', r');
  }

  method InsertLeft<K, V>(cmp: Comparator<K>, n: Node<K, V>, key: K, data: V, ghost l: Tree<K, V>, ghost r: Tree<K, V>)
    returns (top: Node<K, V>, ret: Option<V>, ghost t': Tree<K, V>, ghost made: Node<K, V>)
    requires Headed(n, l, r) && cmp(key, n.key) < 0 && DepthOk(Drawn(n, l, r))
    modifies {n} + Nodes(l) + Nodes(r)
    ensures Top(t') == top && Seen(t') == View(true, Inserted(cmp, old(Drawn(n, l, r)), key, data))
    ensures ret.Some? ==> Nodes(t') == {n} + Nodes(l) + Nodes(r)
    ensures ret.None? ==> fresh(made) && Nodes(t') == {n} + Nodes(l) + Nodes(r) + {made}
    ensures ret == Found(cmp, old(Seen(l).plan), key)
    decreases l, 1
  {
    hide Nodes, Linked, PlanOf, DepthOk, Seen, Settled, Found;
    assert allocated(Nodes(r));
    var ch;
    ghost var l';
    ch, ret, l', made := InsertHelper(cmp, n.left, key, data, l);
    assert Seen(r) == old(Seen(r));
    HangLeft(n, ch, l', r);
    hide Headed;
    top, t' := Settle(n, l', r);
  }

  method InsertRight<K, V>(cmp: Comparator<K>, n: Node<K, V>, key: K, data: V, ghost l: Tree<K, V>,
                           ghost r: Tree<K, V>)
    returns (top: Node<K, V>, ret: Option<V>, ghost t': Tree<K, V>, ghost made: Node<K, V>)
    requires Headed(n, l, r) && cmp(key, n.key) > 0 && DepthOk(Drawn(n, l, r))
    modifies {n} + Nodes(l) + Nodes(r)
    ensures Top(t') == top && Seen(t') == View(true, Inserted(cmp, old(Drawn(n, l, r)), key, data))
    ensures ret.Some? ==> Nodes(t') == {n} + Nodes(l) + Nodes(r)
    ensures ret.None? ==> fresh(made) && Nodes(t') == {n} + Nodes(l) + Nodes(r) + {made}
    ensures ret == Found(cmp, old(Seen(r).plan), key)
    decreases r, 1
  {
    hide Nodes, Linked, PlanOf, DepthOk, Seen, Settled, Found;
    assert allocated(Nodes(l));
    var ch;
    ghost var r';
    ch, ret, r', made := InsertHelper(cmp, n.right, key, data, r);
    assert Seen(l) == old(Seen(l));
    HangRight(n, ch, l, r');
    hide Headed;
    top, t' := Settle(n, l, r');
  }

  method ReplaceData<K, V>(n: Node<K, V>, data: V, ghost t: Tree<K, V>) returns (ret: Option<V>)
    requires Seen(t).ok && t.Branch? && t.node == n
    modifies n`data
    ensures ret == Some(old(n.data))
    ensures Seen(t) == View(true, old(Fork(Seen(t.l).plan, (n.key, data), n.depth, Seen(t.r).plan)))
  {
    Open(t);
    ret := Some(n.data);
    n.data := data;
    assert Seen(t.l) == old(Seen(t.l)) && Seen(t.r) == old(Seen(t.r));
    hide Nodes, Linked, PlanOf, Seen;
    Join(n, t.l, t.r);
  }

  /** Inserts below a link, which is then to point to the node returned. */
  method InsertHelper<K, V>(cmp: Comparator<K>, n: Node?<K, V>, key: K, data: V, ghost t: Tree<K, V>)
    returns (top: Node<K, V>, ret: Option<V>, ghost t': Tree<K, V>, ghost made: Node<K, V>)
    requires Seen(t).ok && Top(t) == n
    modifies Nodes(t)
    ensures Top(t') == top && Seen(t') == View(true, Inserted(cmp, old(Seen(t).plan), key, data))
    ensures (ret.Some? ==> Nodes(t') == Nodes(t)) && (ret.None? ==> fresh(made) && Nodes(t') == Nodes(t) + {made})
    ensures ret == Found(cmp, old(Seen(t).plan), key)
    decreases t, 0
  {
    if n == null {
      top := new Node(key, data);
      Join(top, Leaf, Leaf);
      return top, None, Branch(top, Leaf, Leaf), top;
    }
    Open(t);
    hide Nodes, Linked, PlanOf, DepthOk, Seen, Settled;
    var c := cmp(key, n.key);
    if c == 0 {
      ret := ReplaceData(n, data, t);
      return n, ret, t, n;
    }
    hide Headed, Top, Inserted;
    if c < 0 {
      top, ret, t', made := InsertLeft(cmp, n, key, data, t.l, t.r);
    } else {
      top, ret, t', made := InsertRight(cmp, n, key, data, t.l, t.r);
    }
  }

  // ----- taking out the greatest node

  /** The last tree on the way right. */
  ghost function Last<K, V>(t: Tree<K, V>): Tree<K, V>
    requires t.Branch?
    ensures Last(t).Branch? && Last(t).r.Leaf? && Last(t).node in Nodes(t)
  {
    if t.r.Leaf? then t else Last(t.r)
  }

  /** The node above the last one; null where the tree has no right side. */
  ghost function Above<K, V>(t: Tree<K, V>): Node?<K, V>
    requires t.Branch?
    ensures (Above(t) == null <==> t.r.Leaf?) && (Above(t) != null ==> Above(t) in Nodes(t))
  {
    if t.r.Leaf? then null else if t.r.r.Leaf? then t.node else Above(t.r)
  }

  /** The tree with its last node replaced by the left side of that node. */
  ghost function DropLast<K, V>(t: Tree<K, V>): Tree<K, V>
    requires t.Branch?
  {
    if t.r.Leaf? then t.l else Branch(t.node, t.l, DropLast(t.r))
  }

  /** Linked in order, with all depths consistent but for those on the way right. */
  ghost predicate SpineLinked<K, V>(t: Tree<K, V>)
    reads Nodes(t)
  {
    match t
    case Leaf => true
    case Branch(n, l, r) => n.left == Top(l) && n.right == Top(r) && Disjoint(n, l, r) && Seen(l).ok && SpineLinked(r)
  }

  lemma {:induction false} OkIsSpineLinked<K, V>(t: Tree<K, V>)
    requires Seen(t).ok
    ensures SpineLinked(t)
  {
    if t.Branch? { OkIsSpineLinked(t.r); }
  }

  /** In order once h has its new right link: the old one is not looked at. */
  ghost predicate Waiting<K, V>(t: Tree<K, V>, h: Node<K, V>)
    reads Nodes(t) - {h}, h`left
  {
    match t
    case Leaf => false
    case Branch(n, l, r) =>
      && h !in Nodes(l) && n.left == Top(l) && Disjoint(n, l, r) && Seen(l).ok
      && (if n == h then h !in Nodes(r) && SpineLinked(r) else n.right == Top(r) && Waiting(r, h))
  }

  lemma {:induction false} WaitingIsOk<K, V>(t: Tree<K, V>, h: Node<K, V>, p: Tree<K, V>)
    requires Waiting(t, h) && h.right == Top(p) && RightOf(t, h) == p
    ensures SpineLinked(t)
  {
    if t.node != h { WaitingIsOk(t.r, h, p); }
  }

  ghost function RightOf<K, V>(t: Tree<K, V>, h: Node<K, V>): Tree<K, V> {
    match t case Leaf => Leaf case Branch(n, _, r) => if n == h then r else RightOf(r, h)
  }

  /** The tree without its last node, and what becomes of its value. */
  lemma {:induction false} CutPlan<K, V>(t: Tree<K, V>)
    requires t.Branch? && Linked(t)
    ensures PlanOf(DropLast(t)) == Trimmed(PlanOf(t)) && LastPair(PlanOf(t)) == Pair(Last(t).node)
  {
    if t.r.Branch? { CutPlan(t.r); }
  }

  /** Cutting the last node out below the node above it. */
  lemma {:induction false} CutLast<K, V>(t: Tree<K, V>)
    requires t.Branch? && Seen(t).ok && t.r.Branch?
    ensures Waiting(DropLast(t), Above(t)) && RightOf(DropLast(t), Above(t)) == Last(t).l && Top(DropLast(t)) == Top(t)
    ensures Nodes(DropLast(t)) == Nodes(t) - {Last(t).node}
  {
    Open(t);
    Open(t.r);
    if t.r.r.Leaf? {
      OkIsSpineLinked(t.r.l);
      assert Last(t.r) == t.r;
    } else {
      CutLast(t.r);
    }
  }

  /** Brings the depths on the way right up to date, from the bottom. */
  method RemoveDepthHelper<K, V>(ptr: Node?<K, V>, ghost t: Tree<K, V>)
    requires SpineLinked(t) && Top(t) == ptr
    modifies Nodes(t)
    ensures Seen(t) == View(true, Respined(old(PlanOf(t)))) && Flat(Seen(t).plan) == Flat(old(PlanOf(t)))
    decreases t
  {
    FlatRespined(PlanOf(t));
    if ptr != null {
      assert allocated(Nodes(t.l));
      NodesOf(t.node, t.l, t.r);
      hide Nodes, Linked, PlanOf, DepthOk, Seen, Lifted, Flat;
      RemoveDepthHelper(ptr.right, t.r);
      assert Seen(t.l) == old(Seen(t.l));
      ghost var t' := UpdateDepth(ptr, t.l, t.r);
      assert t == t';
    }
  }

  // ----- removal

  /** What is left where nothing was freed or one node was. */
  ghost predicate Freed<K, V>(was: Tree<K, V>, now: Tree<K, V>, freed: Node?<K, V>) {
    if freed == null then Nodes(now) == Nodes(was) else freed in Nodes(was) && Nodes(now) == Nodes(was) - {freed}
  }

  /** The last node on the way right and the one above it. */
  method FindGreatest<K, V>(n: Node<K, V>, ghost l: Tree<K, V>) returns (holder: Node?<K, V>, y: Node<K, V>)
    requires l.Branch? && n.left == Top(l) && Seen(l).ok
    ensures y == Last(l).node && holder == Above(l) && Headed(y, Last(l).l, Leaf)
  {
    holder, y := null, n.left;
    ghost var cur := l;
    Open(l);
    hide Nodes, Linked, PlanOf, DepthOk, Seen;
    while y.right != null
      invariant cur.Branch? && Top(cur) == y && Headed(y, cur.l, cur.r)
      invariant Last(l) == Last(cur) && Above(l) == if cur.r.Leaf? then holder else Above(cur)
      decreases cur
    {
      holder, y, cur := y, y.right, cur.r;
      Open(cur);
    }
    assert cur.r == Leaf;
  }

  /** The left side of the last node takes its place below the node above. */
  method CutBelow<K, V>(holder: Node<K, V>, y: Node<K, V>, ghost l: Tree<K, V>)
    requires Seen(l).ok && l.Branch? && y == Last(l).node && holder == Above(l) && y.left == Top(Last(l).l)
    modifies holder`right
    ensures SpineLinked(DropLast(l)) && Top(DropLast(l)) == Top(l) && Nodes(DropLast(l)) == Nodes(l) - {y}
    ensures PlanOf(DropLast(l)) == Trimmed(old(PlanOf(l)))
  {
    CutLast(l);
    CutPlan(l);
    assert PlanOf(DropLast(l)) == Trimmed(PlanOf(l));
    holder.right := y.left;
    WaitingIsOk(DropLast(l), holder, Last(l).l);
  }

  /** The same where the last node is the top one. */
  method CutTop<K, V>(n: Node<K, V>, y: Node<K, V>, ghost l: Tree<K, V>)
    requires Seen(l).ok && l.Branch? && l.r.Leaf? && y == l.node && n !in Nodes(l)
    modifies n`left
    ensures SpineLinked(l.l) && n.left == Top(l.l) && Nodes(l.l) == Nodes(l) - {y}
    ensures PlanOf(l.l) == Trimmed(old(PlanOf(l)))
  {
    Open(l);
    CutPlan(l);
    hide Nodes, Linked, PlanOf, DepthOk, Seen;
    n.left := y.left;
    assert Seen(l.l) == old(Seen(l.l));
    OkIsSpineLinked(l.l);
  }

  /** The left side of the last node takes its place under the link that led to it. */
  method Unlink<K, V>(n: Node<K, V>, holder: Node?<K, V>, y: Node<K, V>, ghost l: Tree<K, V>)
    requires Seen(l).ok && l.Branch? && n.left == Top(l) && n !in Nodes(l)
    requires y == Last(l).node && holder == Above(l) && y.left == Top(Last(l).l)
    modifies {n}`left, Nodes(l)`right
    ensures n.left == Top(DropLast(l)) && SpineLinked(DropLast(l)) && Nodes(DropLast(l)) == Nodes(l) - {y}
    ensures PlanOf(DropLast(l)) == Trimmed(old(PlanOf(l)))
  {
    hide Nodes, Linked, PlanOf, DepthOk;
    if holder == null {
      CutTop(n, y, l);
    } else {
      CutBelow(holder, y, l);
    }
  }

  /** The greatest node on the left gives its contents to the node above it all and is freed. */
  method TakeGreatest<K, V>(n: Node<K, V>, ghost l: Tree<K, V>, ghost r: Tree<K, V>) returns (freed: Node<K, V>)
    requires Headed(n, l, r) && l.Branch?
    modifies {n} + Nodes(l)
    ensures n.left == Top(DropLast(l)) && n.right == Top(r) && SpineLinked(DropLast(l)) && Seen(r) == old(Seen(r))
    ensures Nodes(DropLast(l)) == Nodes(l) - {freed} && freed in Nodes(l)
    ensures old(PlanOf(l).Fork?) && Pair(n) == LastPair(old(PlanOf(l))) && n.depth == old(n.depth)
    ensures PlanOf(DropLast(l)) == Trimmed(old(PlanOf(l)))
    ensures Flat(PlanOf(DropLast(l))) + [Pair(n)] == old(Flat(PlanOf(l)))
  {
    assert allocated(Nodes(l)) && allocated(Nodes(r));
    CutPlan(l);
    FlatTrimmed(PlanOf(l));
    hide Nodes, Linked, PlanOf, DepthOk, Seen, DropLast, SpineLinked, Flat;
    var holder, y := FindGreatest(n, l);
    assert Seen(l) == old(Seen(l)) && PlanOf(l) == old(PlanOf(l));
    n.key, n.data := y.key, y.data;
    assert Seen(l) == old(Seen(l)) && PlanOf(l) == old(PlanOf(l));
    assert y.left == Top(Last(l).l);
    hide Headed;
    Unlink(n, holder, y, l);
    assert Seen(r) == old(Seen(r));
    freed := y;
  }

  /** The depth of a tree that heads it may be out of date. */
  ghost predicate HeadOk<K, V>(t: Tree<K, V>)
    reads Nodes(t)
  {
    t.Branch? ==> Headed(t.node, t.l, t.r)
  }

  lemma OkIsHeadOk<K, V>(t: Tree<K, V>)
    requires Seen(t).ok
    ensures HeadOk(t)
  {
    if t.Branch? { Open(t); }
  }

  /**
   * Takes the contents of the top node out: its greatest node on the left, the node's only child or nothing takes its
   * place.
   */
  method TakeNode<K, V>(n: Node<K, V>, ghost t: Tree<K, V>)
    returns (top: Node?<K, V>, ghost t1: Tree<K, V>, freed: Node<K, V>)
    requires Seen(t).ok && t.Branch? && t.node == n
    modifies Nodes(t)
    ensures Top(t1) == top && HeadOk(t1) && Freed(t, t1, freed) && old(Seen(t).plan.Fork?)
    ensures Seen(t1).plan == Replaced(old(Seen(t).plan))
    ensures Flat(Seen(t1).plan) == old(Flat(Seen(t.l).plan) + Flat(Seen(t.r).plan))
  {
    Open(t);
    FlatReplaced(Seen(t).plan);
    OkIsHeadOk(t.l);
    OkIsHeadOk(t.r);
    assert allocated(Nodes(t.r));
    if n.left != null && n.right != null {
      top, t1, freed := TakeFromLeft(n, t);
    } else if n.left != null {
      top, t1, freed := n.left, t.l, n;
    } else if n.right != null {
      top, t1, freed := n.right, t.r, n;
    } else {
      top, t1, freed := null, Leaf, n;
    }
  }

  method TakeFromLeft<K, V>(n: Node<K, V>, ghost t: Tree<K, V>)
    returns (top: Node?<K, V>, ghost t1: Tree<K, V>, freed: Node<K, V>)
    requires Seen(t).ok && t.Branch? && t.node == n && t.l.Branch? && t.r.Branch?
    modifies Nodes(t)
    ensures Top(t1) == top && HeadOk(t1) && Freed(t, t1, freed) && old(Seen(t).plan.Fork?)
    ensures Seen(t1).plan == Replaced(old(Seen(t).plan))
  {
    Open(t);
    ghost var l', r := DropLast(t.l), t.r;
    assert allocated(Nodes(r));
    ghost var p := Seen(t).plan;
    assert p == Fork(PlanOf(t.l), Pair(n), n.depth, Seen(r).plan) && p.l.Fork? && p.r.Fork?;
    hide Nodes, Linked, PlanOf, DepthOk, Seen, DropLast, SpineLinked;
    freed := TakeGreatest(n, t.l, r);
    assert allocated(Nodes(r));
    assert Disjoint(n, l', r);
    RemoveDepthHelper(n.left, l');
    assert Seen(r) == old(Seen(r));
    top, t1 := n, Branch(n, l', r);
    NodesOf(n, l', r);
  }

  /** Brings the depth of the top node up to date, then rotates where that is called for. */
  method Finish<K, V>(n: Node<K, V>, ghost t1: Tree<K, V>) returns (top: Node<K, V>, ghost t': Tree<K, V>)
    requires Top(t1) == n && HeadOk(t1)
    modifies Nodes(t1)
    ensures Top(t') == top && Nodes(t') == Nodes(t1)
    ensures old(Seen(t1).plan.Fork? && DepthOk(Seen(t1).plan.l) && DepthOk(Seen(t1).plan.r))
    ensures var p := old(Seen(t1).plan); Seen(t') == View(true, Finished(p.l, p.pair, p.r))
  {
    HeadIs(t1);
    hide Nodes, Linked, PlanOf, DepthOk, Seen, Lifted;
    ghost var p := Seen(t1).plan;
    FinishedOk(p.l, p.pair, p.r);
    ghost var t := UpdateDepth(n, t1.l, t1.r);
    Open(t);
    ghost var l', r';
    top, l', r' := Rebalance(n, t1.l, t1.r);
    t' := Branch(top, l', r');
    Join(top, l', r');
  }

  lemma HeadIs<K, V>(t: Tree<K, V>)
    requires HeadOk(t) && t.Branch?
    ensures Seen(t).plan == Drawn(t.node, t.l, t.r) && DepthOk(Seen(t.l).plan) && DepthOk(Seen(t.r).plan)
    ensures Nodes(t) == {t.node} + Nodes(t.l) + Nodes(t.r)
  {}

  lemma FreedBelow<N>(was: set<N>, now: set<N>, n: N, a: set<N>, b: set<N>, c: set<N>, x: N)
    requires was == {n} + a + c && now == {n} + b + c && n !in a && n !in c && a !! c
    ensures (b == a ==> now == was) && (x in a && b == a - {x} ==> x in was && now == was - {x})
  {}

  method RemoveLeft<K, V>(cmp: Comparator<K>, n: Node<K, V>, key: K, ghost t: Tree<K, V>)
    returns (ret: Option<V>, ghost t1: Tree<K, V>, ghost freed: Node?<K, V>)
    requires Seen(t).ok && t.Branch? && t.node == n
    modifies Nodes(t)
    ensures Top(t1) == n && HeadOk(t1) && Freed(t, t1, freed) && (freed == null <==> ret.None?)
    ensures Seen(t1).plan == old(Fork(Removed(cmp, Seen(t.l).plan, key), Pair(n), n.depth, Seen(t.r).plan))
    ensures ret == Found(cmp, old(Seen(t.l).plan), key)
    decreases t.l, 1
  {
    Open(t);
    hide Nodes, Linked, PlanOf, DepthOk, Seen, Removed, Found;
    assert allocated(Nodes(t.r));
    var ch;
    ghost var l';
    ch, ret, l', freed := RemoveHelper(cmp, n.left, key, t.l);
    assert Seen(t.r) == old(Seen(t.r));
    HangLeft(n, ch, l', t.r);
    t1 := Branch(n, l', t.r);
    NodesOf(n, l', t.r);
    HeadIs(t1);
    FreedBelow(Nodes(t), Nodes(t1), n, Nodes(t.l), Nodes(l'), Nodes(t.r), freed);
  }

  method RemoveRight<K, V>(cmp: Comparator<K>, n: Node<K, V>, key: K, ghost t: Tree<K, V>)
    returns (ret: Option<V>, ghost t1: Tree<K, V>, ghost freed: Node?<K, V>)
    requires Seen(t).ok && t.Branch? && t.node == n
    modifies Nodes(t)
    ensures Top(t1) == n && HeadOk(t1) && Freed(t, t1, freed) && (freed == null <==> ret.None?)
    ensures Seen(t1).plan == old(Fork(Seen(t.l).plan, Pair(n), n.depth, Removed(cmp, Seen(t.r).plan, key)))
    ensures ret == Found(cmp, old(Seen(t.r).plan), key)
    decreases t.r, 1
  {
    Open(t);
    hide Nodes, Linked, PlanOf, DepthOk, Seen, Removed, Found;
    assert allocated(Nodes(t.l));
    var ch;
    ghost var r';
    ch, ret, r', freed := RemoveHelper(cmp, n.right, key, t.r);
    assert Seen(t.l) == old(Seen(t.l));
    HangRight(n, ch, t.l, r');
    t1 := Branch(n, t.l, r');
    NodesOf(n, t.l, r');
    HeadIs(t1);
    FreedBelow(Nodes(t), Nodes(t1), n, Nodes(t.r), Nodes(r'), Nodes(t.l), freed);
  }

  /** Removes below a link, which is then to point to the node returned. One node is freed, or none. */
  method RemoveHelper<K, V>(cmp: Comparator<K>, n: Node?<K, V>, key: K, ghost t: Tree<K, V>)
    returns (top: Node?<K, V>, ret: Option<V>, ghost t': Tree<K, V>, ghost freed: Node?<K, V>)
    requires Seen(t).ok && Top(t) == n
    modifies Nodes(t)
    ensures Top(t') == top && Freed(t, t', freed) && (freed == null <==> ret.None?)
    ensures Seen(t') == View(true, Removed(cmp, old(Seen(t).plan), key)) && ret == Found(cmp, old(Seen(t).plan), key)
    decreases t, 0
  {
    if n == null {
      return null, None, t, null;
    }
    Open(t);
    hide Nodes, Linked, PlanOf, DepthOk, Seen, Headed, Disjoint, Finished, Trimmed, Respined, LastPair;
    var c := cmp(key, n.key);
    ghost var t1;
    if c < 0 {
      top := n;
      ret, t1, freed := RemoveLeft(cmp, n, key, t);
    } else if c > 0 {
      top := n;
      ret, t1, freed := RemoveRight(cmp, n, key, t);
    } else {
      ret := Some(n.data);
      top, t1, freed := TakeNode(n, t);
    }
    hide HeadOk;
    if top != null {
      top, t' := Finish(top, t1);
    } else {
      t' := t1;
      assert t1.Leaf?;
    }
  }

  // ----- search

  /** Follows the comparator down from a node. */
  method SearchFrom<K, V>(cmp: Comparator<K>, top: Node?<K, V>, key: K, ghost shape: Tree<K, V>)
    returns (ret: Option<V>)
    requires Seen(shape).ok && Top(shape) == top
    ensures ret == Found(cmp, Seen(shape).plan, key)
  {
    hide Nodes, Linked, PlanOf, DepthOk, Seen;
    var node := top;
    ghost var t := shape;
    while node != null
      invariant Top(t) == node && Seen(t).ok && Found(cmp, Seen(shape).plan, key) == Found(cmp, Seen(t).plan, key)
      decreases t
    {
      Open(t);
      var c := cmp(key, node.key);
      if c == 0 {
        return Some(node.data);
      } else if c < 0 {
        node, t := node.left, t.l;
      } else {
        node, t := node.right, t.r;
      }
    }
    TopTells(t);
    return None;
  }

  // ----- the tree as a map

  ghost function Lookup<K, V>(m: map<K, V>, k: K): Option<V> {
    if k in m then Some(m[k]) else None
  }

  ghost function Acted<K, V>(m: map<K, V>, op: Op<K, V>): map<K, V> {
    match op case Put(k, v) => m[k := v] case Drop(k) => m - {k} case Get(_) => m
  }

  ghost function After<K, V>(m: map<K, V>, ops: seq<Op<K, V>>): map<K, V> {
    if ops == [] then m else Acted(After(m, ops[..|ops| - 1]), ops[|ops| - 1])
  }

  lemma InsertedMap<K(!new), V>(cmp: Comparator<K>, p: Plan<K, V>, k: K, v: V)
    requires TotalOrder(cmp) && Sorted(cmp, Flat(p)) && DepthOk(p)
    ensures var q := Inserted(cmp, p, k, v);
      Contents(Flat(q)) == Contents(Flat(p))[k := v] && Sorted(cmp, Flat(q))
  {
    InsertedIsInsert(cmp, p, k, v);
    InsertIsUpdate(cmp, Flat(p), k, v);
  }

  lemma RemovedMap<K(!new), V>(cmp: Comparator<K>, p: Plan<K, V>, k: K)
    requires TotalOrder(cmp) && Sorted(cmp, Flat(p)) && DepthOk(p)
    ensures var q := Removed(cmp, p, k); Contents(Flat(q)) == Contents(Flat(p)) - {k} && Sorted(cmp, Flat(q))
  {
    RemovedIsRemove(cmp, p, k);
    RemoveIsMinus(cmp, Flat(p), k);
  }

  lemma FoundMap<K(!new), V>(cmp: Comparator<K>, p: Plan<K, V>, k: K)
    requires TotalOrder(cmp) && Sorted(cmp, Flat(p))
    ensures Found(cmp, p, k) == Lookup(Contents(Flat(p)), k)
  {
    FoundIsFind(cmp, p, k);
    FindIsLookup(cmp, Flat(p), k);
  }

  lemma {:induction false} ContentsSize<K(!new), V>(cmp: Comparator<K>, s: seq<(K, V)>)
    requires TotalOrder(cmp) && Sorted(cmp, s)
    ensures |Contents(s)| == |s|
  {
    if s != [] {
      SortedTail(cmp, s);
      ContentsSize(cmp, s[1..]);
      NotAmong(cmp, s[1..], s[0].0);
    }
  }

  class AvlTree<K(!new), V> {
    const comparator: Comparator<K>
    var root: Node?<K, V>
    ghost var shape: Tree<K, V>

    constructor (cmp: Comparator<K>)
      requires TotalOrder(cmp)
      ensures Valid() && Pairs() == map[] && Nodes(shape) == {}
    {
      comparator, root, shape := cmp, null, Leaf;
    }

    ghost predicate Valid()
      reads this, Nodes(shape)
    {
      TotalOrder(comparator) && Seen(shape).ok && Top(shape) == root && Sorted(comparator, Flat(Seen(shape).plan))
    }

    /** Keys, data and stored depths. */
    ghost function Layout(): (p: Plan<K, V>)
      reads this, Nodes(shape)
      ensures Valid() ==> DepthOk(p)
    {
      Seen(shape).plan
    }

    ghost function Pairs(): map<K, V>
      reads this, Nodes(shape)
    {
      Contents(Flat(Seen(shape).plan))
    }

    /** What is stored under a key; the replaced value comes back. The balance is kept. */
    method Insert(key: K, data: V) returns (ret: Option<V>)
      requires Valid()
      modifies this, Nodes(shape)
      ensures Valid() && Pairs() == old(Pairs())[key := data] && ret == Lookup(old(Pairs()), key)
      ensures forall x :: x in Nodes(shape) ==> x in old(Nodes(shape)) || fresh(x)
      ensures Layout() == Inserted(comparator, old(Layout()), key, data)
      ensures old(Balanced(Layout())) ==> Balanced(Layout())
    {
      ghost var p := Seen(shape).plan;
      InsertedMap(comparator, p, key, data);
      FoundMap(comparator, p, key);
      if Balanced(p) { InsertedBalanced(comparator, p, key, data); }
      hide Nodes, Linked, PlanOf, DepthOk, Seen, TotalOrder, Sorted, Inserted, Found, Flat, Contents, Lookup, Top,
        Balanced;
      ghost var was := Nodes(shape);
      var top;
      ghost var t, made;
      top, ret, t, made := InsertHelper(comparator, root, key, data, shape);
      assert forall x :: x in Nodes(t) ==> x in was || fresh(x);
      ghost var v := Seen(t);
      root, shape := top, t;
      assert Seen(shape) == v;
    }

    /**
     * Removes a key; its value comes back, and one node goes exactly if the key was there. A balanced tree stays
     * balanced exactly if the removal is safe.
     */
    method Remove(key: K) returns (ret: Option<V>, ghost freed: Node?<K, V>)
      requires Valid()
      modifies this, Nodes(shape)
      ensures Valid() && Pairs() == old(Pairs()) - {key} && ret == Lookup(old(Pairs()), key)
      ensures Freed(old(shape), shape, freed) && (freed == null <==> key !in old(Pairs()))
      ensures Layout() == Removed(comparator, old(Layout()), key)
      ensures old(Balanced(Layout())) ==> (Balanced(Layout()) <==> Safe(comparator, old(Layout()), key))
    {
      ghost var p := Seen(shape).plan;
      RemovedMap(comparator, p, key);
      FoundMap(comparator, p, key);
      if Balanced(p) { RemovedBalanced(comparator, p, key); }
      hide Nodes, Linked, PlanOf, DepthOk, Seen, TotalOrder, Sorted, Removed, Found, Flat, Contents, Balanced, Safe;
      var top;
      ghost var t;
      top, ret, t, freed := RemoveHelper(comparator, root, key, shape);
      hide Freed;
      ghost var v := Seen(t);
      root, shape := top, t;
      assert Seen(shape) == v;
    }

    method Search(key: K) returns (ret: Option<V>)
      requires Valid()
      ensures ret == Lookup(Pairs(), key)
    {
      assert allocated(Nodes(shape));
      FoundMap(comparator, Seen(shape).plan, key);
      hide Nodes, Seen, TotalOrder, Sorted, Found, Contents, Flat;
      ret := SearchFrom(comparator, root, key, shape);
    }

    /** The true height, or one more; in a balanced tree at most twice the logarithm of what is stored, and one. */
    method TreeDepth() returns (d: int)
      requires Valid()
      ensures Height(Layout()) <= d <= Height(Layout()) + 1
      ensures Balanced(Layout()) ==> Pow2(d / 2) <= |Pairs()| + 1
    {
      DepthNearHeight(Seen(shape).plan);
      TopTells(shape);
      if Balanced(Seen(shape).plan) { LowTree(Seen(shape).plan); }
      ContentsSize(comparator, Flat(Seen(shape).plan));
      hide Nodes, Seen, Balanced, Flat, Contents, Sorted, TotalOrder;
      d := if root != null then root.depth else 0;
    }

    /** One operation of a run. */
    method Perform(op: Op<K, V>) returns (ret: Option<V>)
      requires Valid()
      modifies this, Nodes(shape)
      ensures Valid() && Pairs() == Acted(old(Pairs()), op) && ret == Lookup(old(Pairs()), op.key)
      ensures Layout() == Stepped(comparator, old(Layout()), op)
      ensures forall x :: x in Nodes(shape) ==> x in old(Nodes(shape)) || fresh(x)
    {
      hide Nodes, Linked, PlanOf, DepthOk, Seen, Valid, Pairs, Layout, Balanced, Safe, Inserted, Removed;
      match op {
        case Put(k, v) =>
          ret := Insert(k, v);
        case Drop(k) =>
          ghost var freed;
          ret, freed := Remove(k);
        case Get(k) =>
          assert allocated(Nodes(shape));
          ret := Search(k);
      }
    }

    /**
     * Any run of operations gives the answers of a finite map; the tree is the one the functions make, so a run in
     * which every removal is safe leaves it balanced.
     */
    method Run(ops: seq<Op<K, V>>) returns (answers: seq<Option<V>>)
      requires Valid()
      modifies this, Nodes(shape)
      ensures Valid() && Pairs() == After(old(Pairs()), ops)
      ensures (forall x :: x in Nodes(shape) ==> x in old(Nodes(shape)) || fresh(x))
      ensures |answers| == |ops| && Layout() == Worked(comparator, old(Layout()), ops)
      ensures old(Balanced(Layout())) && SafeRun(comparator, old(Layout()), ops) ==> Balanced(Layout())
      ensures forall i :: 0 <= i < |ops| ==> answers[i] == Lookup(After(old(Pairs()), ops[..i]), ops[i].key)
    {
      answers := [];
      ghost var m, p := Pairs(), Layout();
      hide Nodes, Linked, PlanOf, DepthOk, Seen, Valid, Pairs, Layout, Balanced, SafeRun, Acted, Stepped, Lookup;
      for i := 0 to |ops|
        invariant Valid() && Pairs() == After(m, ops[..i])
        invariant (forall x :: x in Nodes(shape) ==> x in old(Nodes(shape)) || fresh(x))
        invariant |answers| == i && Layout() == Worked(comparator, p, ops[..i])
        invariant forall j :: 0 <= j < i ==> answers[j] == Lookup(After(m, ops[..j]), ops[j].key)
      {
        assert ops[..i + 1][..i] == ops[..i];
        var ret := Perform(ops[i]);
        answers := answers + [ret];
      }
      assert ops[..|ops|] == ops;
      if Balanced(p) && SafeRun(comparator, p, ops) { WorkedEnds(comparator, p, ops); }
    }
  }
}
