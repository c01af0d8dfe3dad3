/**
 * How balanced the search tree is: insertion keeps the stored depths of the two sides of every node within one;
 * removal does so exactly where a condition on the end of the path holds.
 */
module AvlBalance {
  import opened Basics
  import opened AvlSpec
  import opened AvlPlan

  /** The stored depths of the two sides differ by at most one, at every node. */
  predicate Balanced<K, V>(p: Plan<K, V>) {
    p.Fork? ==> -1 <= Factor(p) <= 1 && Balanced(p.l) && Balanced(p.r)
  }

  predicate Fine<K, V>(p: Plan<K, V>) {
    DepthOk(p) && Balanced(p)
  }

  /**
   * What a removal may leave where the tree has become deeper: below nothing but nodes that lean, a node with a single
   * child that stores 2.
   */
  predicate Marred<K, V>(p: Plan<K, V>) {
    && p.Fork? && p.depth == 1 + Max(Deep(p.l), Deep(p.r))
    && (if p.l.Nil? then BareTwo(p.r)
        else if p.r.Nil? then BareTwo(p.l)
        else (Marred(p.l) && Factor(p) == 1) || (Marred(p.r) && Factor(p) == -1))
  }

  // ----- left and right

  function Mirror<K, V>(p: Plan<K, V>): Plan<K, V> {
    match p case Nil => Nil case Fork(l, x, d, r) => Fork(Mirror(r), x, d, Mirror(l))
  }

  lemma {:induction false} MirrorSame<K, V>(p: Plan<K, V>)
    ensures Deep(Mirror(p)) == Deep(p) && (Mirror(p).Nil? <==> p.Nil?) && Mirror(Mirror(p)) == p
    ensures DepthOk(Mirror(p)) == DepthOk(p) && Balanced(Mirror(p)) == Balanced(p) && Bare(Mirror(p)) == Bare(p)
    ensures Marred(Mirror(p)) == Marred(p)
  {
    if p.Fork? {
      MirrorSame(p.l);
      MirrorSame(p.r);
    }
  }

  lemma MirrorFinished<K, V>(l: Plan<K, V>, x: (K, V), r: Plan<K, V>)
    requires DepthOk(l) && DepthOk(r)
    ensures DepthOk(Mirror(l)) && DepthOk(Mirror(r))
    ensures Mirror(Finished(l, x, r)) == Finished(Mirror(r), x, Mirror(l))
  {
    MirrorSame(l);
    MirrorSame(r);
    DeepPositive(l);
    DeepPositive(r);
    hide Mirror, RaisedLeft, RaisedRight, DepthOk, Balanced, Marred;
    MirrorLifted(l, x, r);
    if Factor(Lifted(l, x, r)) == 2 {
      MirrorRaised(l, x, r);
    } else if Factor(Lifted(l, x, r)) == -2 {
      MirrorRaised(Mirror(r), x, Mirror(l));
      MirrorSame(RaisedRight(l, x, r));
    }
  }

  lemma MirrorLifted<K, V>(l: Plan<K, V>, x: (K, V), r: Plan<K, V>)
    ensures Mirror(Lifted(l, x, r)) == Lifted(Mirror(r), x, Mirror(l))
  {
    MirrorSame(l);
    MirrorSame(r);
  }

  lemma MirrorRaised<K, V>(l: Plan<K, V>, x: (K, V), r: Plan<K, V>)
    requires l.Fork? && DepthOk(l)
    ensures Mirror(l).Fork? && DepthOk(Mirror(l))
    ensures Mirror(RaisedLeft(l, x, r)) == RaisedRight(Mirror(r), x, Mirror(l))
  {
    MirrorSame(l);
    MirrorSame(l.l);
    MirrorSame(l.r);
    DeepPositive(l.l);
    DeepPositive(l.r);
    hide Balanced, Marred, DepthOk;
    if Factor(l) < 0 {
      MirrorLifted(l.l, l.pair, l.r.l);
      MirrorLifted(Lifted(l.l, l.pair, l.r.l), l.r.pair, l.r.r);
      MirrorRotated(RotatedLeft(l.l, l.pair, l.r), x, r);
    } else {
      MirrorRotated(l, x, r);
    }
  }

  lemma MirrorRotated<K, V>(l: Plan<K, V>, x: (K, V), r: Plan<K, V>)
    requires l.Fork?
    ensures Mirror(RotatedRight(l, x, r)) == RotatedLeft(Mirror(r), x, Mirror(l))
  {
    MirrorLifted(l.r, x, r);
    MirrorLifted(l.l, l.pair, Lifted(l.r, x, r));
  }

  /** Whether the depth of the top is brought up to date before or after a rotation makes no difference. */
  lemma SettledIsFinished<K, V>(p: Plan<K, V>)
    requires p.Fork? && DepthOk(p.l) && DepthOk(p.r)
    ensures Settled(p) == Finished(p.l, p.pair, p.r)
  {}

  // ----- two sides that are fine

  /** A childless node that stores 2. */
  predicate BareTwo<K, V>(p: Plan<K, V>) {
    Bare(p) && p.depth == 2
  }

  /** One side two deeper than the other: rotation mends that, unless there is nothing to rotate. */
  lemma RaisedFine<K, V>(l: Plan<K, V>, x: (K, V), r: Plan<K, V>)
    requires Fine(l) && Fine(r) && Deep(l) == Deep(r) + 2 && l.Fork?
    ensures var q := RaisedLeft(l, x, r);
      if Bare(l) then Deep(q) == 3 && !Balanced(q) && Marred(q) else Balanced(q) && Deep(l) <= Deep(q) <= Deep(l) + 1
  {
    RaisedIs(l, x, r);
    Sides(l);
    DeepPositive(r);
    if Factor(l) < 0 {
      Sides(l.r);
      hide RaisedLeft, Balanced, DepthOk;
      LiftedFine(l.l, l.pair, l.r.l);
      LiftedFine(l.r.r, x, r);
      LiftedFine(Lifted(l.l, l.pair, l.r.l), l.r.pair, Lifted(l.r.r, x, r));
    } else if !Bare(l) {
      hide RaisedLeft, Balanced, DepthOk;
      LiftedFine(l.r, x, r);
      LiftedFine(l.l, l.pair, Lifted(l.r, x, r));
    }
  }

  /** Where the left side leans right, its inner child goes to the top and its own children are parted. */
  lemma RaisedIs<K, V>(l: Plan<K, V>, x: (K, V), r: Plan<K, V>)
    requires l.Fork? && DepthOk(l)
    ensures Factor(l) < 0 ==>
      && l.r.Fork? && DepthOk(l.r)
      && RaisedLeft(l, x, r) == Lifted(Lifted(l.l, l.pair, l.r.l), l.r.pair, Lifted(l.r.r, x, r))
    ensures Factor(l) >= 0 ==> RaisedLeft(l, x, r) == Lifted(l.l, l.pair, Lifted(l.r, x, r))
  {
    DeepPositive(l.l);
    DeepPositive(l.r);
  }

  /** What there is to know of the two sides. */
  lemma Sides<K, V>(p: Plan<K, V>)
    requires Fine(p) && p.Fork?
    ensures Fine(p.l) && Fine(p.r) && -1 <= Deep(p.l) - Deep(p.r) <= 1
    ensures Deep(p.l) >= 0 && (p.l.Nil? <==> Deep(p.l) == 0) && Deep(p.r) >= 0 && (p.r.Nil? <==> Deep(p.r) == 0)
    ensures if Bare(p) then 1 <= p.depth <= 2 else p.depth == 1 + Max(Deep(p.l), Deep(p.r))
  {
    DeepPositive(p.l);
    DeepPositive(p.r);
  }

  lemma LiftedFine<K, V>(l: Plan<K, V>, x: (K, V), r: Plan<K, V>)
    requires Balanced(l) && Balanced(r) && -1 <= Deep(l) - Deep(r) <= 1
    ensures Balanced(Lifted(l, x, r))
  {}

  /** Two sides at most two apart come out balanced, unless the deeper is a single node and the other empty. */
  lemma FinishedFine<K, V>(l: Plan<K, V>, x: (K, V), r: Plan<K, V>)
    requires Fine(l) && Fine(r) && -2 <= Deep(l) - Deep(r) <= 2
    ensures var q, d := Finished(l, x, r), Max(Deep(l), Deep(r));
      && (Balanced(q) <==> !(BareTwo(l) && r.Nil?) && !(l.Nil? && BareTwo(r)))
      && (if -1 <= Deep(l) - Deep(r) <= 1 then Deep(q) == 1 + Max(1, d)
          else if Balanced(q) then d <= Deep(q) <= d + 1 else Deep(q) == 3 && Marred(q))
  {
    DeepPositive(l);
    DeepPositive(r);
    if Deep(l) == Deep(r) + 2 {
      RaisedFine(l, x, r);
    } else if Deep(r) == Deep(l) + 2 {
      MirrorSame(l);
      MirrorSame(r);
      MirrorSame(Finished(l, x, r));
      MirrorFinished(l, x, r);
      RaisedFine(Mirror(r), x, Mirror(l));
    }
  }

  // ----- insertion

  /** Insertion keeps the balance, and the tree becomes at most one deeper. */
  lemma {:induction false} InsertedBalanced<K, V>(cmp: Comparator<K>, p: Plan<K, V>, k: K, v: V)
    requires Fine(p)
    ensures var q := Inserted(cmp, p, k, v);
      Balanced(q) && Deep(p) <= Deep(q) <= Deep(p) + 1 && (Bare(q) ==> Deep(q) == Max(1, Deep(p)))
  {
    if p.Fork? && cmp(k, p.pair.0) != 0 {
      DeepPositive(p);
      DeepPositive(p.l);
      DeepPositive(p.r);
      if cmp(k, p.pair.0) < 0 {
        InsertedBalanced(cmp, p.l, k, v);
        InsertedSide(p, Fork(Inserted(cmp, p.l, k, v), p.pair, p.depth, p.r));
      } else {
        InsertedBalanced(cmp, p.r, k, v);
        InsertedSide(p, Fork(p.l, p.pair, p.depth, Inserted(cmp, p.r, k, v)));
      }
    }
  }

  /** One side is as deep as it was, or one deeper. */
  ghost predicate MayGrow<K, V>(s: Plan<K, V>, s': Plan<K, V>) {
    Fine(s') && Deep(s) <= Deep(s') <= Deep(s) + 1 && s'.Fork? && (Bare(s') ==> Deep(s') == Max(1, Deep(s)))
  }

  lemma InsertedSide<K, V>(p: Plan<K, V>, p': Plan<K, V>)
    requires Fine(p) && p.Fork? && p'.Fork?
    requires (p'.r == p.r && MayGrow(p.l, p'.l)) || (p'.l == p.l && MayGrow(p.r, p'.r))
    ensures var q := Settled(p'); Balanced(q) && Deep(p) <= Deep(q) <= Deep(p) + 1 && !Bare(q)
  {
    SettledIsFinished(p');
    DeepPositive(p.l);
    DeepPositive(p.r);
    hide Finished, Settled;
    FinishedFine(p'.l, p'.pair, p'.r);
    FinishedFork(p'.l, p'.pair, p'.r);
  }

  /** A node with a child has one after rotation. */
  lemma FinishedFork<K, V>(l: Plan<K, V>, x: (K, V), r: Plan<K, V>)
    requires DepthOk(l) && DepthOk(r)
    ensures Finished(l, x, r).Fork? && (l.Fork? || r.Fork? ==> !Bare(Finished(l, x, r)))
  {}

  // ----- removal: when the balance is kept

  /** A single node may go on the other side of this one. */
  predicate Yields<K, V>(o: Plan<K, V>) {
    !BareTwo(o) && Deep(o) != 3
  }

  /** A childless node that stores 1 and has another key: the search for the key ends there and makes it store 2. */
  predicate Lifts<K, V>(cmp: Comparator<K>, s: Plan<K, V>, k: K) {
    Bare(s) && s.depth == 1 && cmp(k, s.pair.0) != 0
  }

  /** The only child is such a node. */
  predicate Snaps<K, V>(cmp: Comparator<K>, s: Plan<K, V>, k: K) {
    && s.Fork? && cmp(k, s.pair.0) != 0
    && (if cmp(k, s.pair.0) < 0 then Lifts(cmp, s.l, k) && s.r.Nil? else Lifts(cmp, s.r, k) && s.l.Nil?)
  }

  /** Taking the last node out makes the tree less deep. */
  predicate Shrinks<K, V>(p: Plan<K, V>)
    requires p.Fork?
  {
    p.r.Fork? && (if Bare(p.r) then p.r.depth == 2 else Shrinks(p.r) && Deep(p.l) < Deep(p.r))
  }

  /** Taking the last node out keeps the balance on the way to it, where nothing is rotated. */
  predicate Sheds<K, V>(p: Plan<K, V>)
    requires p.Fork?
  {
    p.r.Nil? || (if Bare(p.r) then Deep(p.l) <= 1 else Sheds(p.r) && (Shrinks(p.r) ==> Deep(p.l) <= Deep(p.r)))
  }

  /** The removal of a key keeps the balance: looks only at the tree as it is. */
  predicate Safe<K, V>(cmp: Comparator<K>, p: Plan<K, V>, k: K)
    decreases p, 0
  {
    match p
    case Nil => true
    case Fork(l, x, _, r) =>
      if cmp(k, x.0) == 0 then l.Nil? || r.Nil? || (if Bare(l) then Yields(r) else Sheds(l))
      else if cmp(k, x.0) < 0 then SafeBelow(cmp, l, r, k)
      else SafeBelow(cmp, r, l, k)
  }

  /** The same where the key is on the side s and the other side is o. */
  predicate SafeBelow<K, V>(cmp: Comparator<K>, s: Plan<K, V>, o: Plan<K, V>, k: K)
    decreases s, 1
  {
    if Goes(cmp, s, k) then Yields(o)
    else if Lifts(cmp, s, k) then o.Fork?
    else if Snaps(cmp, s, k) then Deep(o) == 1
    else Safe(cmp, s, k)
  }

  /** A childless node that is to be removed. */
  predicate Goes<K, V>(cmp: Comparator<K>, s: Plan<K, V>, k: K) {
    Bare(s) && cmp(k, s.pair.0) == 0
  }

  // ----- a side less deep

  /** A side that is no deeper than it was and not balanced: rotation on the other side does not mend it. */
  lemma UnevenStays<K, V>(l: Plan<K, V>, x: (K, V), r: Plan<K, V>)
    requires DepthOk(l) && !Balanced(l) && Fine(r) && -2 <= Deep(l) - Deep(r) <= 1
    ensures var q := Finished(l, x, r);
      && !Balanced(q)
      && (if Deep(r) == Deep(l) + 2 then Deep(r) <= Deep(q) <= Deep(r) + 1 else Deep(q) == 1 + Max(Deep(l), Deep(r)))
  {
    DeepPositive(l);
    DeepPositive(r);
    if Deep(r) == Deep(l) + 2 {
      Sides(r);
      if Factor(r) > 0 { Sides(r.l); }
    }
  }

  /** Nothing on one side and three levels on the other: nothing is rotated. */
  lemma NoneBeside<K, V>(x: (K, V), o: Plan<K, V>)
    requires Fine(o) && Deep(o) <= 3
    ensures var q := Finished(Nil, x, o);
      && (Balanced(q) <==> Yields(o)) && Max(2, Deep(o)) <= Deep(q) <= 1 + Max(1, Deep(o))
      && (BareTwo(o) ==> Deep(q) == 3)
  {
    DeepPositive(o);
    if Deep(o) < 3 { FinishedFine(Nil, x, o); }
  }

  /** Taking the last node out, with the depths on the way to it brought up to date. */
  lemma {:induction false} TrimmedBalanced<K, V>(p: Plan<K, V>)
    requires Fine(p) && p.Fork? && !Bare(p)
    ensures var q := Respined(Trimmed(p));
      && DepthOk(q) && q.Fork? && (Balanced(q) <==> Sheds(p)) && Deep(p) - 1 <= Deep(q) <= Deep(p)
      && (Sheds(p) ==> Deep(q) == if Shrinks(p) then Deep(p) - 1 else Deep(p))
  {
    Sides(p);
    TrimmedOk(p);
    if p.r.Nil? {
      Sides(p.l);
    } else if Bare(p.r) {
      assert Trimmed(p.r) == Nil;
    } else {
      TrimmedBalanced(p.r);
    }
  }

  /** How a removal leaves the tree p: gone, balanced or not, and how deep. */
  ghost predicate Leaves<K, V>(p: Plan<K, V>, q: Plan<K, V>, safe: bool, gone: bool) {
    && DepthOk(q) && (Balanced(q) <==> safe)
    && (if gone then q.Nil? else Deep(p) - 1 <= Deep(q) <= Deep(p) + 1)
    && (!safe && Deep(q) == Deep(p) + 1 ==> Marred(q))
  }

  /** A side that is deeper than it was and marred stays so, or is mended by a node that stores 1 on the other side. */
  lemma MarredStays<K, V>(s: Plan<K, V>, q: Plan<K, V>, x: (K, V), o: Plan<K, V>)
    requires Fine(s) && Fine(o) && -1 <= Deep(s) - Deep(o) <= 1 && 2 <= Deep(s)
    requires DepthOk(q) && Marred(q) && Deep(q) == Deep(s) + 1
    ensures var t := Finished(q, x, o);
      && (Balanced(t) <==> Deep(o) == 1)
      && (if Deep(o) < Deep(s) then Deep(t) == Deep(q) else Deep(t) == 1 + Deep(q))
      && (Deep(o) == Deep(s) ==> Marred(t))
  {
    DeepPositive(q);
    DeepPositive(o);
    Uneven(q);
    if Deep(o) < Deep(s) {
      MarredRaised(q, x, o);
      hide Balanced, Marred, DepthOk, RaisedLeft;
    }
  }

  lemma MarredRaised<K, V>(q: Plan<K, V>, x: (K, V), o: Plan<K, V>)
    requires Fine(o) && DepthOk(q) && Marred(q) && Deep(q) == Deep(o) + 2 && Deep(o) >= 1
    ensures var t := RaisedLeft(q, x, o); (Balanced(t) <==> Deep(o) == 1) && Deep(t) == Deep(q)
  {
    Uneven(q);
    Halves(q);
    DeepPositive(q.l);
    DeepPositive(q.r);
    DeepPositive(o);
    RaisedIs(q, x, o);
    if Deep(o) == 1 {
      Sides(o);
    } else if Factor(q) < 0 {
      Halves(q.r);
      DeepPositive(q.r.l);
      DeepPositive(q.r.r);
      Uneven(q.r);
    } else {
      Uneven(q.l);
    }
  }

  lemma {:induction false} Uneven<K, V>(p: Plan<K, V>)
    requires DepthOk(p) && Marred(p)
    ensures !Balanced(p) && Deep(p) >= 3
    ensures Deep(p) == 3 <==> p.l.Nil? || p.r.Nil?
  {
    Halves(p);
    DeepPositive(p.l);
    DeepPositive(p.r);
    if p.l.Fork? && p.r.Fork? {
      if Marred(p.l) { Uneven(p.l); }
      if Marred(p.r) { Uneven(p.r); }
    }
  }

  /** A tree of two levels that is not safe has a single child, at which the search ends. */
  lemma ShallowUnsafe<K, V>(cmp: Comparator<K>, s: Plan<K, V>, k: K)
    requires Fine(s) && Deep(s) <= 2
    ensures Safe(cmp, s, k) || (Snaps(cmp, s, k) && Deep(s) == 2)
    ensures Snaps(cmp, s, k) ==> !Safe(cmp, s, k)
    ensures Deep(s) == 1 ==> Bare(s)
  {
    if s.Fork? {
      Sides(s);
      if s.l.Fork? { Sides(s.l); }
      if s.r.Fork? { Sides(s.r); }
    }
  }

  /** What the condition below a node comes to, by what is known of the side on the way. */
  lemma SafeBelowIs<K, V>(cmp: Comparator<K>, s: Plan<K, V>, o: Plan<K, V>, k: K)
    requires Fine(s) && Fine(o) && -1 <= Deep(s) - Deep(o) <= 1
    ensures Goes(cmp, s, k) ==> (SafeBelow(cmp, s, o, k) <==> Yields(o)) && 1 <= Deep(s) <= 2
    ensures !Goes(cmp, s, k) && Safe(cmp, s, k) ==>
      (SafeBelow(cmp, s, o, k) <==> !(Lifts(cmp, s, k) && o.Nil?)) && (Lifts(cmp, s, k) <==> Deep(s) == 1)
    ensures !Goes(cmp, s, k) && !Safe(cmp, s, k) ==> (SafeBelow(cmp, s, o, k) <==> Deep(o) == 1) && 2 <= Deep(s)
  {
    DeepPositive(s);
    DeepPositive(o);
    if Deep(s) <= 2 { ShallowUnsafe(cmp, s, k); }
    if Snaps(cmp, s, k) { Sides(s); }
    hide DepthOk, Balanced, Safe;
  }

  /** p stores what a node over s and o does. */
  ghost predicate Atop<K, V>(p: Plan<K, V>, s: Plan<K, V>, o: Plan<K, V>) {
    if s.Nil? && o.Nil? then 1 <= Deep(p) <= 2 else Deep(p) == 1 + Max(Deep(s), Deep(o))
  }

  /** The removal goes on in the left side: what it leaves there decides, with the right side, how the tree is left. */
  lemma RemovedSide<K, V>(cmp: Comparator<K>, p: Plan<K, V>, s: Plan<K, V>, q: Plan<K, V>, x: (K, V), o: Plan<K, V>,
                          k: K)
    requires Fine(s) && Fine(o) && -1 <= Deep(s) - Deep(o) <= 1 && Atop(p, s, o)
    requires Leaves(s, q, Safe(cmp, s, k), s.Nil? || Goes(cmp, s, k)) && (Lifts(cmp, s, k) ==> BareTwo(q))
    ensures Leaves(p, Finished(q, x, o), SafeBelow(cmp, s, o, k), false)
  {
    hide *;
    if Goes(cmp, s, k) {
      RemovedGoes(cmp, p, s, q, x, o, k);
    } else if Safe(cmp, s, k) {
      RemovedSafe(cmp, p, s, q, x, o, k);
    } else {
      RemovedUnsafe(cmp, p, s, q, x, o, k);
    }
  }

  lemma RemovedGoes<K, V>(cmp: Comparator<K>, p: Plan<K, V>, s: Plan<K, V>, q: Plan<K, V>, x: (K, V), o: Plan<K, V>,
                          k: K)
    requires Goes(cmp, s, k)
    requires Fine(s) && Fine(o) && -1 <= Deep(s) - Deep(o) <= 1 && Atop(p, s, o)
    requires Leaves(s, q, Safe(cmp, s, k), s.Nil? || Goes(cmp, s, k)) && (Lifts(cmp, s, k) ==> BareTwo(q))
    ensures Leaves(p, Finished(q, x, o), SafeBelow(cmp, s, o, k), false)
  {
    SafeBelowIs(cmp, s, o, k);
    DeepPositive(o);
    hide Finished, DepthOk, Balanced, Safe, SafeBelow, Marred, Yields;
    FinishedOk(q, x, o);
    NoneBeside(x, o);
  }

  lemma RemovedSafe<K, V>(cmp: Comparator<K>, p: Plan<K, V>, s: Plan<K, V>, q: Plan<K, V>, x: (K, V), o: Plan<K, V>,
                          k: K)
    requires !Goes(cmp, s, k) && Safe(cmp, s, k)
    requires Fine(s) && Fine(o) && -1 <= Deep(s) - Deep(o) <= 1 && Atop(p, s, o)
    requires Leaves(s, q, Safe(cmp, s, k), s.Nil? || Goes(cmp, s, k)) && (Lifts(cmp, s, k) ==> BareTwo(q))
    ensures Leaves(p, Finished(q, x, o), SafeBelow(cmp, s, o, k), false)
  {
    SafeBelowIs(cmp, s, o, k);
    hide Safe, SafeBelow, Marred, Balanced, Finished, DepthOk, Goes, Lifts;
    DeepPositive(s);
    DeepPositive(o);
    DeepPositive(q);
    FinishedOk(q, x, o);
    FinishedFine(q, x, o);
  }

  lemma RemovedUnsafe<K, V>(cmp: Comparator<K>, p: Plan<K, V>, s: Plan<K, V>, q: Plan<K, V>, x: (K, V), o: Plan<K, V>,
                            k: K)
    requires !Goes(cmp, s, k) && !Safe(cmp, s, k)
    requires Fine(s) && Fine(o) && -1 <= Deep(s) - Deep(o) <= 1 && Atop(p, s, o)
    requires Leaves(s, q, Safe(cmp, s, k), s.Nil? || Goes(cmp, s, k)) && (Lifts(cmp, s, k) ==> BareTwo(q))
    ensures Leaves(p, Finished(q, x, o), SafeBelow(cmp, s, o, k), false)
  {
    SafeBelowIs(cmp, s, o, k);
    hide Safe, SafeBelow, Marred, Balanced, Finished, DepthOk, Goes, Lifts;
    DeepPositive(s);
    DeepPositive(o);
    ShallowBalanced(q);
    FinishedOk(q, x, o);
    if Deep(q) == Deep(s) + 1 {
      MarredStays(s, q, x, o);
    } else {
      UnevenStays(q, x, o);
    }
  }

  lemma ShallowBalanced<K, V>(p: Plan<K, V>)
    requires DepthOk(p)
    ensures Balanced(p) || Deep(p) >= 3
  {
    if p.Fork? {
      Halves(p);
      DeepPositive(p.l);
      DeepPositive(p.r);
    }
  }

  /** The node on top is taken out. */
  lemma TakenLeaves<K, V>(p: Plan<K, V>)
    requires Fine(p) && p.Fork?
    ensures Leaves(p, Taken(p), p.l.Nil? || p.r.Nil? || (if Bare(p.l) then Yields(p.r) else Sheds(p.l)), Bare(p))
  {
    Sides(p);
    if p.l.Fork? && p.r.Fork? {
      TakenBoth(p);
    } else if p.l.Fork? {
      Sides(p.l);
    } else if p.r.Fork? {
      Sides(p.r);
    }
  }

  lemma TakenBoth<K, V>(p: Plan<K, V>)
    requires Fine(p) && p.Fork? && p.l.Fork? && p.r.Fork?
    ensures Leaves(p, Taken(p), if Bare(p.l) then Yields(p.r) else Sheds(p.l), false)
  {
    Sides(p);
    TrimmedOk(p.l);
    var l, x, r := Respined(Trimmed(p.l)), LastPair(p.l), p.r;
    assert Taken(p) == Finished(l, x, r);
    if Bare(p.l) {
      hide Finished, Taken, Balanced, Marred, DepthOk;
      assert l == Nil;
      NoneBeside(x, r);
    } else {
      TrimmedBalanced(p.l);
      DeepPositive(l);
      hide Finished, Taken, Balanced, Marred, DepthOk, Sheds, Respined, Trimmed;
      if Sheds(p.l) { FinishedFine(l, x, r); } else { UnevenStays(l, x, r); }
    }
  }

  /** The removal goes on in the right side: the same, seen in the mirror. */
  lemma RemovedRight<K, V>(cmp: Comparator<K>, p: Plan<K, V>, q: Plan<K, V>, k: K)
    requires Fine(p) && p.Fork?
    requires Leaves(p.r, q, Safe(cmp, p.r, k), p.r.Nil? || Goes(cmp, p.r, k)) && (Lifts(cmp, p.r, k) ==> BareTwo(q))
    ensures Leaves(p, Finished(p.l, p.pair, q), SafeBelow(cmp, p.r, p.l, k), false)
  {
    hide *;
    RightSides(p);
    LeavesDeep(p.r, q, Safe(cmp, p.r, k), p.r.Nil? || Goes(cmp, p.r, k));
    LeavesMirror(p.r, q, Safe(cmp, p.r, k), p.r.Nil? || Goes(cmp, p.r, k));
    MirrorSame(p.l);
    MirrorBareTwo(q);
    MirrorFinished(p.l, p.pair, q);
    BelowMirror(cmp, p.r, p.l, k);
    RemovedSide(cmp, p, p.r, Mirror(q), p.pair, Mirror(p.l), k);
    LeavesMirror(p, Finished(p.l, p.pair, q), SafeBelow(cmp, p.r, p.l, k), false);
  }

  lemma RightSides<K, V>(p: Plan<K, V>)
    requires Fine(p) && p.Fork?
    ensures Fine(p.r) && DepthOk(p.l) && Fine(Mirror(p.l)) && Atop(p, p.r, Mirror(p.l))
    ensures -1 <= Deep(p.r) - Deep(Mirror(p.l)) <= 1
  {
    Sides(p);
    MirrorSame(p.l);
  }

  lemma LeavesDeep<K, V>(p: Plan<K, V>, q: Plan<K, V>, safe: bool, gone: bool)
    requires Leaves(p, q, safe, gone)
    ensures DepthOk(q)
  {}

  lemma LeavesMirror<K, V>(p: Plan<K, V>, q: Plan<K, V>, safe: bool, gone: bool)
    ensures Leaves(p, Mirror(q), safe, gone) == Leaves(p, q, safe, gone)
  {
    MirrorSame(q);
    hide Mirror;
  }

  lemma MirrorBareTwo<K, V>(p: Plan<K, V>)
    ensures BareTwo(Mirror(p)) == BareTwo(p)
  {}

  lemma BelowMirror<K, V>(cmp: Comparator<K>, s: Plan<K, V>, o: Plan<K, V>, k: K)
    ensures SafeBelow(cmp, s, Mirror(o), k) == SafeBelow(cmp, s, o, k)
  {
    MirrorSame(o);
    hide Mirror;
  }

  /** Removal keeps the balance exactly where that is safe, and how deep the tree is then. */
  lemma {:induction false} RemovedLeaves<K, V>(cmp: Comparator<K>, p: Plan<K, V>, k: K)
    requires Fine(p)
    ensures Leaves(p, Removed(cmp, p, k), Safe(cmp, p, k), p.Nil? || Goes(cmp, p, k))
    ensures Lifts(cmp, p, k) ==> BareTwo(Removed(cmp, p, k))
  {
    if p.Fork? {
      var l, x, r, c := p.l, p.pair, p.r, cmp(k, p.pair.0);
      Sides(p);
      if c == 0 {
        TakenLeaves(p);
      } else if c < 0 {
        RemovedLeaves(cmp, l, k);
        RemovedSide(cmp, p, l, Removed(cmp, l, k), x, r, k);
      } else {
        RemovedLeaves(cmp, r, k);
        RemovedRight(cmp, p, Removed(cmp, r, k), k);
      }
    }
  }

  /** Removal keeps the balance if and only if the key is safe to remove. */
  lemma RemovedBalanced<K, V>(cmp: Comparator<K>, p: Plan<K, V>, k: K)
    requires Fine(p)
    ensures Balanced(Removed(cmp, p, k)) <==> Safe(cmp, p, k)
  {
    RemovedLeaves(cmp, p, k);
  }

  // ----- runs

  /** The tree is balanced throughout. */
  ghost predicate BalancedRun<K, V>(cmp: Comparator<K>, p: Plan<K, V>, ops: seq<Op<K, V>>)
    requires DepthOk(p)
  {
    forall i :: 0 <= i <= |ops| ==> Balanced(Worked(cmp, p, ops[..i]))
  }

  /** A run keeps the balance throughout if and only if every key is safe to remove when it is removed. */
  lemma {:induction false} WorkedBalanced<K, V>(cmp: Comparator<K>, p: Plan<K, V>, ops: seq<Op<K, V>>)
    requires Fine(p)
    ensures BalancedRun(cmp, p, ops) <==> SafeRun(cmp, p, ops)
    decreases |ops|
  {
    if ops != [] {
      var init, q := ops[..|ops| - 1], Worked(cmp, p, ops[..|ops| - 1]);
      WorkedBalanced(cmp, p, init);
      LastStep(cmp, p, ops);
      if Balanced(q) { StepBalanced(cmp, q, ops[|ops| - 1]); }
      hide BalancedRun, SafeRun;
    }
  }

  /** What the last operation adds. */
  lemma LastStep<K, V>(cmp: Comparator<K>, p: Plan<K, V>, ops: seq<Op<K, V>>)
    requires DepthOk(p) && ops != []
    ensures var init, op := ops[..|ops| - 1], ops[|ops| - 1];
      && (BalancedRun(cmp, p, ops) <==> BalancedRun(cmp, p, init) && Balanced(Worked(cmp, p, ops)))
      && (BalancedRun(cmp, p, init) ==> Balanced(Worked(cmp, p, init)))
      && (SafeRun(cmp, p, ops) <==> SafeRun(cmp, p, init) && (op.Drop? ==> Safe(cmp, Worked(cmp, p, init), op.key)))
  {
    hide Balanced, Safe, Worked;
    var n := |ops| - 1;
    var init := ops[..n];
    forall i | 0 <= i <= n ensures init[..i] == ops[..i] {}
    assert ops[..n + 1] == ops && init[..n] == init;
  }

  lemma WorkedEnds<K, V>(cmp: Comparator<K>, p: Plan<K, V>, ops: seq<Op<K, V>>)
    requires Fine(p) && SafeRun(cmp, p, ops)
    ensures Balanced(Worked(cmp, p, ops))
  {
    WorkedBalanced(cmp, p, ops);
    assert ops[..|ops|] == ops;
  }

  /** Every key is safe to remove when it is removed. */
  ghost predicate SafeRun<K, V>(cmp: Comparator<K>, p: Plan<K, V>, ops: seq<Op<K, V>>)
    requires DepthOk(p)
  {
    forall i :: 0 <= i < |ops| && ops[i].Drop? ==> Safe(cmp, Worked(cmp, p, ops[..i]), ops[i].key)
  }

  lemma StepBalanced<K, V>(cmp: Comparator<K>, q: Plan<K, V>, op: Op<K, V>)
    requires Fine(q)
    ensures Balanced(Stepped(cmp, q, op)) <==> (op.Drop? ==> Safe(cmp, q, op.key))
  {
    match op
    case Put(k, v) => InsertedBalanced(cmp, q, k, v);
    case Drop(k) => RemovedBalanced(cmp, q, k);
    case Get(_) =>
  }

  // ----- what balance is worth

  predicate HeightsWithin<K, V>(p: Plan<K, V>, n: nat) {
    p.Fork? ==>
      && Height(p.l) <= Height(p.r) + n && Height(p.r) <= Height(p.l) + n
      && HeightsWithin(p.l, n) && HeightsWithin(p.r, n)
  }

  /** The true heights of the two sides of a node differ by at most two. */
  lemma {:induction false} HeightsClose<K, V>(p: Plan<K, V>)
    requires Fine(p)
    ensures HeightsWithin(p, 2)
  {
    if p.Fork? {
      DepthNearHeight(p.l);
      DepthNearHeight(p.r);
      HeightsClose(p.l);
      HeightsClose(p.r);
    }
  }

  /** A balanced tree of n nodes is no deeper than twice the logarithm of n + 1, and one. */
  lemma {:induction false} LowTree<K, V>(p: Plan<K, V>)
    requires Fine(p)
    ensures Deep(p) >= 0 && Pow2(Deep(p) / 2) <= |Flat(p)| + 1
  {
    DeepPositive(p);
    if p.Fork? {
      Sides(p);
      LowTree(p.l);
      LowTree(p.r);
      if !Bare(p) {
        var n := Max(Deep(p.l), Deep(p.r)) - 1;
        assert Deep(p) == n + 2 && Deep(p) / 2 == n / 2 + 1;
        Pow2Mono(n / 2, Deep(p.l) / 2);
        Pow2Mono(n / 2, Deep(p.r) / 2);
      }
    }
  }

  // ----- inputs at which less is kept

  const ByValue: Comparator<int> := (a, b) => a - b

  /** After 2 and 4 the removal of 6, which is not there, leaves the tree unbalanced. */
  lemma AbsentKeyUnbalances()
    ensures var p := Inserted(ByValue, Inserted(ByValue, Nil, 2, 0), 4, 0);
      Balanced(p) && !Safe(ByValue, p, 6) && !Balanced(Removed(ByValue, p, 6))
  {
    var p := Fork(Nil, (2, 0), 2, Single(4, 1));
    assert Inserted(ByValue, Nil, 2, 0) == Single(2, 1);
    assert Inserted(ByValue, Single(2, 1), 4, 0) == p;
    hide Inserted, Removed;
    RemovedBalanced(ByValue, p, 6);
  }

  function Single(k: int, d: int): Plan<int, int> {
    Fork(Nil, (k, 0), d, Nil)
  }

  /** A key below all others goes down the left side. */
  lemma LeftInserted(p: Plan<int, int>, k: int, q: Plan<int, int>)
    requires DepthOk(p) && (if p.Nil? then q == Nil else k < p.pair.0 && q == Inserted(ByValue, p.l, k, 0))
    ensures Inserted(ByValue, p, k, 0) ==
      if p.Nil? then Single(k, 1) else Settled(Fork(q, p.pair, p.depth, p.r))
    ensures p.Fork? && -1 <= Deep(q) - Deep(p.r) <= 1 ==> Inserted(ByValue, p, k, 0) == Lifted(q, p.pair, p.r)
  {}

  lemma TwoOneThree()
    ensures Inserted(ByValue, Inserted(ByValue, Inserted(ByValue, Nil, 2, 0), 1, 0), 3, 0)
         == Fork(Single(1, 1), (2, 0), 2, Single(3, 1))
  {
    assert Inserted(ByValue, Nil, 2, 0) == Single(2, 1);
    assert Inserted(ByValue, Single(2, 1), 1, 0) == Fork(Single(1, 1), (2, 0), 2, Nil);
  }

  /** After 2, 1, 3 and the removal of 4, which is not there, so does the removal of 1. */
  lemma LeafUnbalances()
    ensures var p := Inserted(ByValue, Inserted(ByValue, Inserted(ByValue, Nil, 2, 0), 1, 0), 3, 0);
      var q := Removed(ByValue, p, 4);
      Balanced(q) && !Safe(ByValue, q, 1) && !Balanced(Removed(ByValue, q, 1))
  {
    TwoOneThree();
    hide Inserted;
    var p, q := Fork(Single(1, 1), (2, 0), 2, Single(3, 1)), Fork(Single(1, 1), (2, 0), 3, Single(3, 2));
    assert Removed(ByValue, p.r, 4) == Single(3, 2);
    assert Removed(ByValue, p, 4) == q;
    hide Removed;
    RemovedBalanced(ByValue, q, 1);
  }

  /** The true heights may differ by two after insertions alone. */
  lemma HeightsTwoApart()
    ensures var p := Inserted(ByValue, Inserted(ByValue, Inserted(ByValue, Nil, 6, 0), 5, 0), 4, 0);
      var q := Inserted(ByValue, Inserted(ByValue, Inserted(ByValue, p, 3, 0), 2, 0), 1, 0);
      !HeightsWithin(q, 1)
  {
    hide Inserted, Settled;
    LeftInserted(Nil, 6, Nil);
    LeftInserted(Nil, 5, Nil);
    LeftInserted(Single(6, 1), 5, Single(5, 1));
    FourInserted();
    MoreInserted();
  }

  /** Three keys in a chain to the left are rotated. */
  lemma ChainSettled(a: int, b: int, c: int)
    ensures var p := Fork(Fork(Single(a, 1), (b, 0), 2, Nil), (c, 0), 2, Nil);
      DepthOk(p.l) && Settled(p) == Fork(Single(a, 1), (b, 0), 3, Single(c, 2))
  {}

  lemma FourInserted()
    ensures Inserted(ByValue, Fork(Single(5, 1), (6, 0), 2, Nil), 4, 0) == Five(Single(4, 1), 3)
  {
    hide Inserted, Settled;
    LeftInserted(Nil, 4, Nil);
    LeftInserted(Single(5, 1), 4, Single(4, 1));
    LeftInserted(Fork(Single(5, 1), (6, 0), 2, Nil), 4, Fork(Single(4, 1), (5, 0), 2, Nil));
    ChainSettled(4, 5, 6);
  }

  function Five(l: Plan<int, int>, d: int): Plan<int, int> {
    Fork(l, (5, 0), d, Single(6, 2))
  }

  function Four(): Plan<int, int> {
    Fork(Single(3, 1), (4, 0), 2, Nil)
  }

  function Three(l: Plan<int, int>): Plan<int, int> {
    Fork(l, (3, 0), 3, Single(4, 2))
  }

  lemma MoreInserted()
    ensures var p := Five(Single(4, 1), 3);
      var q := Inserted(ByValue, Inserted(ByValue, Inserted(ByValue, p, 3, 0), 2, 0), 1, 0);
      !HeightsWithin(q, 1)
  {
    ThreeInserted();
    TwoInserted();
    OneInserted();
    hide Inserted;
  }

  lemma ThreeInserted()
    ensures Inserted(ByValue, Five(Single(4, 1), 3), 3, 0) == Five(Four(), 3)
  {
    hide Inserted, Settled;
    LeftInserted(Nil, 3, Nil);
    LeftInserted(Single(4, 1), 3, Single(3, 1));
    LeftInserted(Five(Single(4, 1), 3), 3, Four());
  }

  lemma TwoInserted()
    ensures Inserted(ByValue, Five(Four(), 3), 2, 0) == Five(Three(Single(2, 1)), 4)
  {
    UnderFour();
    hide Inserted, Settled;
    LeftInserted(Five(Four(), 3), 2, Three(Single(2, 1)));
  }

  lemma UnderFour()
    ensures Inserted(ByValue, Four(), 2, 0) == Three(Single(2, 1))
  {
    hide Inserted, Settled;
    LeftInserted(Nil, 2, Nil);
    LeftInserted(Single(3, 1), 2, Single(2, 1));
    LeftInserted(Four(), 2, Fork(Single(2, 1), (3, 0), 2, Nil));
    ChainSettled(2, 3, 4);
  }

  lemma OneInserted()
    ensures Inserted(ByValue, Five(Three(Single(2, 1)), 4), 1, 0)
         == Five(Three(Fork(Single(1, 1), (2, 0), 2, Nil)), 4)
  {
    hide Inserted, Settled;
    LeftInserted(Nil, 1, Nil);
    LeftInserted(Single(2, 1), 1, Single(1, 1));
    LeftInserted(Three(Single(2, 1)), 1, Fork(Single(1, 1), (2, 0), 2, Nil));
    LeftInserted(Five(Three(Single(2, 1)), 4), 1, Three(Fork(Single(1, 1), (2, 0), 2, Nil)));
  }
}
