/**
 * The search tree as a value: keys with data, stored depths, and what insertion and removal make of them. The
 * contents are those of sorted insertion and removal, and the stored depths stay consistent.
 */
module AvlPlan {
  import opened Basics
  import opened AvlSpec

  datatype Plan<K, V> = Nil | Fork(l: Plan<K, V>, pair: (K, V), depth: int, r: Plan<K, V>)

  function Deep<K, V>(p: Plan<K, V>): int {
    match p case Nil => 0 case Fork(_, _, d, _) => d
  }

  function Flat<K, V>(p: Plan<K, V>): seq<(K, V)> {
    match p case Nil => [] case Fork(l, x, _, r) => Flat(l) + [x] + Flat(r)
  }

  function Height<K, V>(p: Plan<K, V>): nat {
    match p case Nil => 0 case Fork(l, _, _, r) => 1 + if Height(l) < Height(r) then Height(r) else Height(l)
  }

  predicate Bare<K, V>(p: Plan<K, V>) {
    p.Fork? && p.l.Nil? && p.r.Nil?
  }

  /** A node without children stores 1 or 2, any other one more than its deepest child. */
  predicate DepthOk<K, V>(p: Plan<K, V>) {
    match p
    case Nil => true
    case Fork(l, _, d, r) =>
      && DepthOk(l) && DepthOk(r)
      && if l.Nil? && r.Nil? then 1 <= d <= 2 else d == 1 + Max(Deep(l), Deep(r))
  }

  /** The stored depth is the height or one more. */
  lemma {:induction false} DepthNearHeight<K, V>(p: Plan<K, V>)
    requires DepthOk(p)
    ensures Height(p) <= Deep(p) <= Height(p) + 1
    ensures p.Nil? <==> Deep(p) == 0
  {
    match p
    case Nil =>
    case Fork(l, _, _, r) =>
      DepthNearHeight(l);
      DepthNearHeight(r);
  }

  lemma {:induction false} DeepPositive<K, V>(p: Plan<K, V>)
    requires DepthOk(p)
    ensures Deep(p) >= 0 && (p.Nil? <==> Deep(p) == 0)
  {
    DepthNearHeight(p);
  }

  // ----- the operations

  /** A node with the depth its children call for, which is 2 where there are none. */
  function Lifted<K, V>(l: Plan<K, V>, x: (K, V), r: Plan<K, V>): Plan<K, V> {
    Fork(l, x, 1 + Max(1, Max(Deep(l), Deep(r))), r)
  }

  /** Positive where the left side is deeper. */
  function Factor<K, V>(p: Plan<K, V>): int
    requires p.Fork?
  {
    Deep(p.l) - Deep(p.r)
  }

  function RotatedLeft<K, V>(l: Plan<K, V>, x: (K, V), r: Plan<K, V>): Plan<K, V>
    requires r.Fork?
  {
    Lifted(Lifted(l, x, r.l), r.pair, r.r)
  }

  function RotatedRight<K, V>(l: Plan<K, V>, x: (K, V), r: Plan<K, V>): Plan<K, V>
    requires l.Fork?
  {
    Lifted(l.l, l.pair, Lifted(l.r, x, r))
  }

  /** A side that leans the wrong way is turned first. */
  function RaisedLeft<K, V>(l: Plan<K, V>, x: (K, V), r: Plan<K, V>): Plan<K, V>
    requires l.Fork? && DepthOk(l)
  {
    DeepPositive(l.l);
    DeepPositive(l.r);
    RotatedRight(if Factor(l) < 0 then RotatedLeft(l.l, l.pair, l.r) else l, x, r)
  }

  function RaisedRight<K, V>(l: Plan<K, V>, x: (K, V), r: Plan<K, V>): Plan<K, V>
    requires r.Fork? && DepthOk(r)
  {
    DeepPositive(r.l);
    DeepPositive(r.r);
    RotatedLeft(l, x, if Factor(r) > 0 then RotatedRight(r.l, r.pair, r.r) else r)
  }

  /** Rotated where the depths of the two sides differ by exactly two. */
  function Rebalanced<K, V>(p: Plan<K, V>): (q: Plan<K, V>)
    requires p.Fork? && DepthOk(p.l) && DepthOk(p.r)
    ensures q.Fork?
  {
    DeepPositive(p.l);
    DeepPositive(p.r);
    if Factor(p) == 2 then RaisedLeft(p.l, p.pair, p.r)
    else if Factor(p) == -2 then RaisedRight(p.l, p.pair, p.r)
    else p
  }

  /** The end of an insertion: rotation first, the depth of the node on top after it. */
  function Settled<K, V>(p: Plan<K, V>): Plan<K, V>
    requires p.Fork? && DepthOk(p.l) && DepthOk(p.r)
  {
    var q := Rebalanced(p);
    Lifted(q.l, q.pair, q.r)
  }

  /** The end of a removal: the depth of the node on top first, rotation after it. */
  function Finished<K, V>(l: Plan<K, V>, x: (K, V), r: Plan<K, V>): Plan<K, V>
    requires DepthOk(l) && DepthOk(r)
  {
    Rebalanced(Lifted(l, x, r))
  }

  function Inserted<K, V>(cmp: Comparator<K>, p: Plan<K, V>, k: K, v: V): (q: Plan<K, V>)
    requires DepthOk(p)
    ensures DepthOk(q) && q.Fork?
  {
    match p
    case Nil => Fork(Nil, (k, v), 1, Nil)
    case Fork(l, x, d, r) =>
      if cmp(k, x.0) == 0 then Fork(l, (x.0, v), d, r)
      else
        var q :=
          if cmp(k, x.0) < 0 then Fork(Inserted(cmp, l, k, v), x, d, r) else Fork(l, x, d, Inserted(cmp, r, k, v));
        SettledOk(q);
        Settled(q)
  }

  /** The last pair on the way right. */
  function LastPair<K, V>(p: Plan<K, V>): (K, V)
    requires p.Fork?
  {
    if p.r.Nil? then p.pair else LastPair(p.r)
  }

  /** The last node replaced by its left side; the depths above it are out of date. */
  function Trimmed<K, V>(p: Plan<K, V>): Plan<K, V>
    requires p.Fork?
  {
    if p.r.Nil? then p.l else Fork(p.l, p.pair, p.depth, Trimmed(p.r))
  }

  /** The depths on the way right brought up to date. */
  function Respined<K, V>(p: Plan<K, V>): Plan<K, V> {
    match p case Nil => Nil case Fork(l, x, _, r) => Lifted(l, x, Respined(r))
  }

  function Removed<K, V>(cmp: Comparator<K>, p: Plan<K, V>, k: K): (q: Plan<K, V>)
    requires DepthOk(p)
    ensures DepthOk(q)
  {
    match p
    case Nil => Nil
    case Fork(l, x, d, r) =>
      var c := cmp(k, x.0);
      if c == 0 then Taken(p)
      else if c < 0 then
        FinishedOk(Removed(cmp, l, k), x, r);
        Finished(Removed(cmp, l, k), x, r)
      else
        FinishedOk(l, x, Removed(cmp, r, k));
        Finished(l, x, Removed(cmp, r, k))
  }

  /** The node on top taken out: its greatest node on the left, its only child or nothing takes its place. */
  function Taken<K, V>(p: Plan<K, V>): (q: Plan<K, V>)
    requires p.Fork? && DepthOk(p)
    ensures DepthOk(q)
  {
    if p.l.Fork? && p.r.Fork? then
      TrimmedOk(p.l);
      FinishedOk(Respined(Trimmed(p.l)), LastPair(p.l), p.r);
      Finished(Respined(Trimmed(p.l)), LastPair(p.l), p.r)
    else if p.l.Fork? then
      Halves(p.l);
      FinishedOk(p.l.l, p.l.pair, p.l.r);
      Finished(p.l.l, p.l.pair, p.l.r)
    else if p.r.Fork? then
      Halves(p.r);
      FinishedOk(p.r.l, p.r.pair, p.r.r);
      Finished(p.r.l, p.r.pair, p.r.r)
    else Nil
  }

  function Found<K, V>(cmp: Comparator<K>, p: Plan<K, V>, k: K): Option<V> {
    match p
    case Nil => None
    case Fork(l, x, _, r) =>
      if cmp(k, x.0) == 0 then Some(x.1) else if cmp(k, x.0) < 0 then Found(cmp, l, k) else Found(cmp, r, k)
  }

  // ----- depths stay consistent

  lemma Halves<K, V>(p: Plan<K, V>)
    requires p.Fork? && DepthOk(p)
    ensures DepthOk(p.l) && DepthOk(p.r)
  {}

  lemma LiftedOk<K, V>(l: Plan<K, V>, x: (K, V), r: Plan<K, V>)
    requires DepthOk(l) && DepthOk(r)
    ensures DepthOk(Lifted(l, x, r))
  {
    DeepPositive(l);
    DeepPositive(r);
  }

  lemma RebalancedOk<K, V>(p: Plan<K, V>)
    requires p.Fork? && DepthOk(p.l) && DepthOk(p.r)
    ensures DepthOk(Rebalanced(p).l) && DepthOk(Rebalanced(p).r)
    ensures Rebalanced(p) == p || DepthOk(Rebalanced(p))
  {
    var l, x, r := p.l, p.pair, p.r;
    DeepPositive(l);
    DeepPositive(r);
    if Factor(p) == 2 {
      DeepPositive(l.l);
      DeepPositive(l.r);
      if Factor(l) < 0 {
        LiftedOk(l.l, l.pair, l.r.l);
        LiftedOk(Lifted(l.l, l.pair, l.r.l), l.r.pair, l.r.r);
        RotatedOk(RotatedLeft(l.l, l.pair, l.r), x, r);
      } else {
        RotatedOk(l, x, r);
      }
    } else if Factor(p) == -2 {
      DeepPositive(r.l);
      DeepPositive(r.r);
      if Factor(r) > 0 {
        LiftedOk(r.l.r, r.pair, r.r);
        LiftedOk(r.l.l, r.l.pair, Lifted(r.l.r, r.pair, r.r));
        TurnedOk(l, x, RotatedRight(r.l, r.pair, r.r));
      } else {
        TurnedOk(l, x, r);
      }
    }
  }

  lemma RotatedOk<K, V>(l: Plan<K, V>, x: (K, V), r: Plan<K, V>)
    requires l.Fork? && DepthOk(l) && DepthOk(r)
    ensures DepthOk(RotatedRight(l, x, r))
  {
    LiftedOk(l.r, x, r);
    LiftedOk(l.l, l.pair, Lifted(l.r, x, r));
  }

  lemma TurnedOk<K, V>(l: Plan<K, V>, x: (K, V), r: Plan<K, V>)
    requires r.Fork? && DepthOk(l) && DepthOk(r)
    ensures DepthOk(RotatedLeft(l, x, r))
  {
    LiftedOk(l, x, r.l);
    LiftedOk(Lifted(l, x, r.l), r.pair, r.r);
  }

  lemma SettledOk<K, V>(p: Plan<K, V>)
    requires p.Fork? && DepthOk(p.l) && DepthOk(p.r)
    ensures DepthOk(Settled(p))
  {
    RebalancedOk(p);
    hide Rebalanced;
    var q := Rebalanced(p);
    LiftedOk(q.l, q.pair, q.r);
  }

  lemma FinishedOk<K, V>(l: Plan<K, V>, x: (K, V), r: Plan<K, V>)
    requires DepthOk(l) && DepthOk(r)
    ensures DepthOk(Finished(l, x, r))
  {
    LiftedOk(l, x, r);
    RebalancedOk(Lifted(l, x, r));
  }

  lemma {:induction false} RespinedOk<K, V>(p: Plan<K, V>)
    requires SpineOk(p)
    ensures DepthOk(Respined(p))
  {
    if p.Fork? {
      RespinedOk(p.r);
      LiftedOk(p.l, p.pair, Respined(p.r));
    }
  }

  /** Consistent but for the depths on the way right. */
  predicate SpineOk<K, V>(p: Plan<K, V>) {
    p.Fork? ==> DepthOk(p.l) && SpineOk(p.r)
  }

  lemma {:induction false} OkIsSpineOk<K, V>(p: Plan<K, V>)
    requires DepthOk(p)
    ensures SpineOk(p)
  {
    if p.Fork? { OkIsSpineOk(p.r); }
  }

  lemma {:induction false} TrimmedSpine<K, V>(p: Plan<K, V>)
    requires p.Fork? && SpineOk(p)
    ensures SpineOk(Trimmed(p))
  {
    if p.r.Fork? { TrimmedSpine(p.r); } else { OkIsSpineOk(p.l); }
  }

  lemma TrimmedOk<K, V>(p: Plan<K, V>)
    requires p.Fork? && DepthOk(p)
    ensures DepthOk(Respined(Trimmed(p)))
  {
    OkIsSpineOk(p);
    TrimmedSpine(p);
    RespinedOk(Trimmed(p));
  }

  // ----- contents

  lemma FlatTurned<K, V>(l: Plan<K, V>, x: (K, V), r: Plan<K, V>)
    ensures r.Fork? ==> Flat(RotatedLeft(l, x, r)) == Flat(l) + [x] + Flat(r)
    ensures l.Fork? ==> Flat(RotatedRight(l, x, r)) == Flat(l) + [x] + Flat(r)
  {
    if r.Fork? { Regroup(Flat(l), x, Flat(r.l), r.pair, Flat(r.r)); }
    if l.Fork? { Regroup(Flat(l.l), l.pair, Flat(l.r), x, Flat(r)); }
  }

  lemma Regroup<T>(a: seq<T>, x: T, b: seq<T>, y: T, c: seq<T>)
    ensures a + [x] + (b + [y] + c) == (a + [x] + b) + [y] + c
  {}

  /** Rotation moves nothing in the order. */
  lemma FlatRebalanced<K, V>(p: Plan<K, V>)
    requires p.Fork? && DepthOk(p.l) && DepthOk(p.r)
    ensures Flat(Rebalanced(p)) == Flat(p)
  {
    var l, x, r := p.l, p.pair, p.r;
    DeepPositive(l);
    DeepPositive(r);
    if Factor(p) == 2 {
      DeepPositive(l.l);
      DeepPositive(l.r);
      if Factor(l) < 0 { FlatTurned(l.l, l.pair, l.r); }
      FlatTurned(if Factor(l) < 0 then RotatedLeft(l.l, l.pair, l.r) else l, x, r);
    } else if Factor(p) == -2 {
      DeepPositive(r.l);
      DeepPositive(r.r);
      if Factor(r) > 0 { FlatTurned(r.l, r.pair, r.r); }
      FlatTurned(l, x, if Factor(r) > 0 then RotatedRight(r.l, r.pair, r.r) else r);
    }
  }

  /** Insertion is sorted insertion into the contents. */
  lemma {:induction false} InsertedIsInsert<K(!new), V>(cmp: Comparator<K>, p: Plan<K, V>, k: K, v: V)
    requires TotalOrder(cmp) && Sorted(cmp, Flat(p)) && DepthOk(p)
    ensures Flat(Inserted(cmp, p, k, v)) == Insert(cmp, Flat(p), k, v)
  {
    hide TotalOrder, Sorted, Insert;
    if p.Nil? {
      InsertNone(cmp, k, v);
    } else {
      InsertParts(cmp, Flat(p.l), p.pair, Flat(p.r), k, v);
      if cmp(k, p.pair.0) < 0 {
        InsertedIsInsert(cmp, p.l, k, v);
        FlatRebalanced(Fork(Inserted(cmp, p.l, k, v), p.pair, p.depth, p.r));
      } else if cmp(k, p.pair.0) > 0 {
        InsertedIsInsert(cmp, p.r, k, v);
        FlatRebalanced(Fork(p.l, p.pair, p.depth, Inserted(cmp, p.r, k, v)));
      }
    }
  }

  lemma InsertNone<K, V>(cmp: Comparator<K>, k: K, v: V)
    ensures Insert(cmp, [], k, v) == [(k, v)]
  {}

  /** Looking up in the tree is looking up in the contents. */
  lemma {:induction false} FoundIsFind<K(!new), V>(cmp: Comparator<K>, p: Plan<K, V>, k: K)
    requires TotalOrder(cmp) && Sorted(cmp, Flat(p))
    ensures Found(cmp, p, k) == Find(cmp, Flat(p), k)
  {
    if p.Fork? {
      RemoveParts(cmp, Flat(p.l), p.pair, Flat(p.r), k);
      hide TotalOrder, Sorted, Find;
      FoundIsFind(cmp, p.l, k);
      FoundIsFind(cmp, p.r, k);
    }
  }

  lemma {:induction false} FlatTrimmed<K, V>(p: Plan<K, V>)
    requires p.Fork?
    ensures Flat(Trimmed(p)) + [LastPair(p)] == Flat(p)
  {
    if p.r.Fork? {
      FlatTrimmed(p.r);
      assert Flat(p.l) + [p.pair] + Flat(Trimmed(p.r)) + [LastPair(p.r)] == Flat(p.l) + [p.pair] + Flat(p.r);
    }
  }

  lemma {:induction false} FlatRespined<K, V>(p: Plan<K, V>)
    ensures Flat(Respined(p)) == Flat(p)
  {
    if p.Fork? { FlatRespined(p.r); }
  }

  /** What takes the place of a node that is taken out, before the depth on top is brought up to date. */
  function Replaced<K, V>(p: Plan<K, V>): Plan<K, V>
    requires p.Fork?
  {
    if p.l.Fork? && p.r.Fork? then Fork(Respined(Trimmed(p.l)), LastPair(p.l), p.depth, p.r)
    else if p.l.Fork? then p.l
    else p.r
  }

  lemma FlatReplaced<K, V>(p: Plan<K, V>)
    requires p.Fork?
    ensures Flat(Replaced(p)) == Flat(p.l) + Flat(p.r)
  {
    if p.l.Fork? && p.r.Fork? {
      FlatTrimmed(p.l);
      FlatRespined(Trimmed(p.l));
    }
  }

  /** Taking a node out leaves what is left and right of it. */
  lemma FlatTaken<K, V>(p: Plan<K, V>)
    requires p.Fork? && DepthOk(p)
    ensures Flat(Taken(p)) == Flat(p.l) + Flat(p.r)
  {
    if p.l.Fork? && p.r.Fork? {
      TrimmedOk(p.l);
      FlatTrimmed(p.l);
      FlatRespined(Trimmed(p.l));
      FlatRebalanced(Lifted(Respined(Trimmed(p.l)), LastPair(p.l), p.r));
    } else if p.l.Fork? {
      FlatRebalanced(Lifted(p.l.l, p.l.pair, p.l.r));
    } else if p.r.Fork? {
      FlatRebalanced(Lifted(p.r.l, p.r.pair, p.r.r));
    }
  }

  /** Removal is removal from the contents. */
  lemma {:induction false} RemovedIsRemove<K(!new), V>(cmp: Comparator<K>, p: Plan<K, V>, k: K)
    requires TotalOrder(cmp) && Sorted(cmp, Flat(p)) && DepthOk(p)
    ensures Flat(Removed(cmp, p, k)) == Remove(cmp, Flat(p), k)
  {
    hide TotalOrder, Sorted, Taken;
    if p.Fork? {
      RemoveParts(cmp, Flat(p.l), p.pair, Flat(p.r), k);
      hide Remove;
      if cmp(k, p.pair.0) < 0 {
        RemovedIsRemove(cmp, p.l, k);
        FlatRebalanced(Lifted(Removed(cmp, p.l, k), p.pair, p.r));
      } else if cmp(k, p.pair.0) > 0 {
        RemovedIsRemove(cmp, p.r, k);
        FlatRebalanced(Lifted(p.l, p.pair, Removed(cmp, p.r, k)));
      } else {
        FlatTaken(p);
      }
    }
  }

  // ----- runs

  datatype Op<K, V> = Put(key: K, data: V) | Drop(key: K) | Get(key: K)

  /** The tree after one operation. */
  function Stepped<K, V>(cmp: Comparator<K>, p: Plan<K, V>, op: Op<K, V>): (q: Plan<K, V>)
    requires DepthOk(p)
    ensures DepthOk(q)
  {
    match op case Put(k, v) => Inserted(cmp, p, k, v) case Drop(k) => Removed(cmp, p, k) case Get(_) => p
  }

  /** The tree after a run of operations. */
  function Worked<K, V>(cmp: Comparator<K>, p: Plan<K, V>, ops: seq<Op<K, V>>): (q: Plan<K, V>)
    requires DepthOk(p)
    ensures DepthOk(q)
    decreases |ops|
  {
    if ops == [] then p else Stepped(cmp, Worked(cmp, p, ops[..|ops| - 1]), ops[|ops| - 1])
  }
}
