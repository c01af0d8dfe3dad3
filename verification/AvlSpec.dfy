/**
 * Ordered lists of keys with data: the finite map a search tree stands for.
 */
module AvlSpec {
  import opened Basics

  type Comparator<!K> = (K, K) -> int

  ghost predicate TotalOrder<K(!new)>(cmp: Comparator<K>) {
    && (forall a, b :: cmp(a, b) == 0 <==> a == b)
    && (forall a, b :: cmp(a, b) < 0 <==> cmp(b, a) > 0)
    && (forall a, b, c :: cmp(a, b) < 0 && cmp(b, c) < 0 ==> cmp(a, c) < 0)
  }

  lemma Order<K(!new)>(cmp: Comparator<K>, a: K, b: K)
    requires TotalOrder(cmp)
    ensures (cmp(a, b) == 0 <==> a == b) && (cmp(a, b) < 0 <==> cmp(b, a) > 0) && (cmp(a, b) > 0 <==> cmp(b, a) < 0)
  {}

  lemma Transitive<K(!new)>(cmp: Comparator<K>, a: K, b: K, c: K)
    requires TotalOrder(cmp) && cmp(a, b) < 0 && cmp(b, c) < 0
    ensures cmp(a, c) < 0
  {}

  /** Keys increase strictly. */
  ghost predicate Sorted<K, V>(cmp: Comparator<K>, s: seq<(K, V)>) {
    forall i, j :: 0 <= i < j < |s| ==> cmp(s[i].0, s[j].0) < 0
  }

  ghost function Insert<K, V>(cmp: Comparator<K>, s: seq<(K, V)>, k: K, v: V): seq<(K, V)> {
    if s == [] then [(k, v)]
    else if cmp(k, s[0].0) < 0 then [(k, v)] + s
    else if cmp(k, s[0].0) == 0 then [(s[0].0, v)] + s[1..]
    else [s[0]] + Insert(cmp, s[1..], k, v)
  }

  ghost function Remove<K, V>(cmp: Comparator<K>, s: seq<(K, V)>, k: K): seq<(K, V)> {
    if s == [] then [] else if cmp(k, s[0].0) == 0 then s[1..] else [s[0]] + Remove(cmp, s[1..], k)
  }

  ghost function Find<K, V>(cmp: Comparator<K>, s: seq<(K, V)>, k: K): Option<V> {
    if s == [] then None else if cmp(k, s[0].0) == 0 then Some(s[0].1) else Find(cmp, s[1..], k)
  }

  /** The map of an ordered list. */
  ghost function Contents<K, V>(s: seq<(K, V)>): map<K, V> {
    if s == [] then map[] else Contents(s[1..])[s[0].0 := s[0].1]
  }

  // ----- the list operations are the map operations

  lemma {:induction false} FindIsLookup<K(!new), V>(cmp: Comparator<K>, s: seq<(K, V)>, k: K)
    requires TotalOrder(cmp)
    ensures Find(cmp, s, k) == if k in Contents(s) then Some(Contents(s)[k]) else None
  {
    if s != [] {
      Order(cmp, k, s[0].0);
      hide TotalOrder;
      FindIsLookup(cmp, s[1..], k);
    }
  }

  lemma {:induction false} KeysOfContents<K, V>(s: seq<(K, V)>, k: K)
    ensures k in Contents(s) <==> exists i :: 0 <= i < |s| && s[i].0 == k
  {
    if s != [] {
      KeysOfContents(s[1..], k);
      if k in Contents(s[1..]) {
        var i :| 0 <= i < |s[1..]| && s[1..][i].0 == k;
        assert s[i + 1].0 == k;
      }
    }
  }

  lemma {:induction false} InsertIsUpdate<K(!new), V>(cmp: Comparator<K>, s: seq<(K, V)>, k: K, v: V)
    requires TotalOrder(cmp) && Sorted(cmp, s)
    ensures Contents(Insert(cmp, s, k, v)) == Contents(s)[k := v] && Sorted(cmp, Insert(cmp, s, k, v))
  {
    if s != [] {
      var x, rest := s[0], s[1..];
      SortedTail(cmp, s);
      InsertCases(cmp, s, k, v);
      assert s == [x] + rest;
      hide TotalOrder, Sorted, Insert, Contents;
      Order(cmp, k, x.0);
      ContentsCons(x, rest);
      if cmp(k, x.0) > 0 {
        InsertIsUpdate(cmp, rest, k, v);
        InsertedAbove(cmp, x, rest, k, v);
        SortedCons(cmp, x, Insert(cmp, rest, k, v));
        ContentsCons(x, Insert(cmp, rest, k, v));
        Commute(Contents(rest), x.0, x.1, k, v);
      } else if cmp(k, x.0) < 0 {
        BelowAll(cmp, x, rest, k);
        SortedCons(cmp, (k, v), s);
        ContentsCons((k, v), s);
      } else {
        SortedCons(cmp, (x.0, v), rest);
        ContentsCons((x.0, v), rest);
        Commute(Contents(rest), x.0, x.1, k, v);
      }
    }
  }

  lemma Commute<K, V>(m: map<K, V>, a: K, x: V, b: K, y: V)
    ensures a != b ==> m[a := x][b := y] == m[b := y][a := x]
    ensures m[a := x][a := y] == m[a := y]
  {}

  lemma BelowAll<K(!new), V>(cmp: Comparator<K>, x: (K, V), rest: seq<(K, V)>, k: K)
    requires TotalOrder(cmp) && cmp(k, x.0) < 0 && forall i :: 0 <= i < |rest| ==> cmp(x.0, rest[i].0) < 0
    ensures forall i :: 0 <= i < |[x] + rest| ==> cmp(k, ([x] + rest)[i].0) < 0
  {
    hide TotalOrder;
    forall i | 0 <= i < |rest| ensures cmp(k, rest[i].0) < 0 { Transitive(cmp, k, x.0, rest[i].0); }
  }

  lemma InsertedAbove<K, V>(cmp: Comparator<K>, x: (K, V), rest: seq<(K, V)>, k: K, v: V)
    requires cmp(x.0, k) < 0 && forall i :: 0 <= i < |rest| ==> cmp(x.0, rest[i].0) < 0
    ensures forall i :: 0 <= i < |Insert(cmp, rest, k, v)| ==> cmp(x.0, Insert(cmp, rest, k, v)[i].0) < 0
  {
    InsertKeys(cmp, rest, k, v);
    var r := Insert(cmp, rest, k, v);
    hide Insert;
    forall i | 0 <= i < |r| ensures cmp(x.0, r[i].0) < 0 {
      assert r[i] in r;
      if r[i].0 != k {
        var y :| y in rest && y.0 == r[i].0;
      }
    }
  }

  lemma InsertCases<K, V>(cmp: Comparator<K>, s: seq<(K, V)>, k: K, v: V)
    requires s != []
    ensures cmp(k, s[0].0) > 0 ==> Insert(cmp, s, k, v) == [s[0]] + Insert(cmp, s[1..], k, v)
    ensures cmp(k, s[0].0) == 0 ==> Insert(cmp, s, k, v) == [(s[0].0, v)] + s[1..]
    ensures cmp(k, s[0].0) < 0 ==> Insert(cmp, s, k, v) == [(k, v)] + s
  {}

  lemma SortedTail<K, V>(cmp: Comparator<K>, s: seq<(K, V)>)
    requires Sorted(cmp, s) && s != []
    ensures Sorted(cmp, s[1..]) && forall i :: 0 <= i < |s[1..]| ==> cmp(s[0].0, s[1..][i].0) < 0
  {}

  lemma SortedCons<K, V>(cmp: Comparator<K>, x: (K, V), r: seq<(K, V)>)
    requires Sorted(cmp, r) && forall i :: 0 <= i < |r| ==> cmp(x.0, r[i].0) < 0
    ensures Sorted(cmp, [x] + r)
  {}

  lemma ContentsCons<K, V>(x: (K, V), r: seq<(K, V)>)
    ensures Contents([x] + r) == Contents(r)[x.0 := x.1]
  {
    assert ([x] + r)[1..] == r;
  }

  /** Inserting brings in no other key. */
  lemma {:induction false} InsertKeys<K, V>(cmp: Comparator<K>, s: seq<(K, V)>, k: K, v: V)
    ensures forall y :: y in Insert(cmp, s, k, v) ==> y.0 == k || HasKey(s, y.0)
  {
    if s != [] {
      if cmp(k, s[0].0) > 0 {
        InsertKeys(cmp, s[1..], k, v);
        forall y | y in Insert(cmp, s, k, v) ensures y.0 == k || HasKey(s, y.0) {
          if y == s[0] { assert HasKey(s, y.0); } else {
            assert y in Insert(cmp, s[1..], k, v);
            if y.0 != k { HasTail(s, y.0); }
          }
        }
      } else {
        forall y | y in Insert(cmp, s, k, v) ensures y.0 == k || HasKey(s, y.0) {
          if y.0 != k && y in s[1..] { assert HasKey(s[1..], y.0); HasTail(s, y.0); }
        }
      }
    }
  }

  ghost predicate HasKey<K, V>(s: seq<(K, V)>, k: K) {
    exists y :: y in s && y.0 == k
  }

  lemma HasTail<K, V>(s: seq<(K, V)>, k: K)
    requires s != [] && HasKey(s[1..], k)
    ensures HasKey(s, k)
  {
    var y :| y in s[1..] && y.0 == k;
    assert y in s;
  }

  lemma {:induction false} RemoveIsMinus<K(!new), V>(cmp: Comparator<K>, s: seq<(K, V)>, k: K)
    requires TotalOrder(cmp) && Sorted(cmp, s)
    ensures Contents(Remove(cmp, s, k)) == Contents(s) - {k} && Sorted(cmp, Remove(cmp, s, k))
  {
    if s != [] {
      var x, rest := s[0], s[1..];
      SortedTail(cmp, s);
      Order(cmp, k, x.0);
      assert s == [x] + rest;
      ContentsCons(x, rest);
      if cmp(k, x.0) == 0 {
        NotAmong(cmp, rest, k);
        assert Remove(cmp, s, k) == rest;
        hide *;
        MinusHead(Contents(rest), x.0, x.1, k);
      } else {
        RemoveIsMinus(cmp, rest, k);
        RemoveKeys(cmp, rest, k);
        var r := Remove(cmp, rest, k);
        forall i | 0 <= i < |r| ensures cmp(x.0, r[i].0) < 0 { assert r[i] in r; }
        assert Remove(cmp, s, k) == [x] + r;
        hide *;
        SortedCons(cmp, x, r);
        ContentsCons(x, r);
        MinusHead(Contents(rest), x.0, x.1, k);
      }
    }
  }

  lemma MinusHead<K, V>(m: map<K, V>, a: K, x: V, k: K)
    ensures a != k ==> (m - {k})[a := x] == m[a := x] - {k}
    ensures k !in m ==> m[k := x] - {k} == m
  {}

  lemma NotAmong<K(!new), V>(cmp: Comparator<K>, s: seq<(K, V)>, k: K)
    requires TotalOrder(cmp) && forall i :: 0 <= i < |s| ==> cmp(k, s[i].0) < 0
    ensures k !in Contents(s)
  {
    KeysOfContents(s, k);
    forall i | 0 <= i < |s| ensures s[i].0 != k { Order(cmp, k, s[i].0); }
  }

  lemma {:induction false} RemoveKeys<K, V>(cmp: Comparator<K>, s: seq<(K, V)>, k: K)
    ensures forall y :: y in Remove(cmp, s, k) ==> y in s
  {
    if s != [] { RemoveKeys(cmp, s[1..], k); }
  }

  // ----- around a root

  lemma {:induction false} SortedParts<K, V>(cmp: Comparator<K>, a: seq<(K, V)>, x: (K, V), b: seq<(K, V)>)
    requires Sorted(cmp, a + [x] + b)
    ensures Sorted(cmp, a) && Sorted(cmp, b)
    ensures forall i :: 0 <= i < |a| ==> cmp(a[i].0, x.0) < 0
    ensures forall i :: 0 <= i < |b| ==> cmp(x.0, b[i].0) < 0
  {
    var s := a + [x] + b;
    forall i | 0 <= i < |a| ensures a[i] == s[i] {}
    assert s[|a|] == x;
    forall i | 0 <= i < |b| ensures b[i] == s[|a| + 1 + i] {}
    forall i, j | 0 <= i < j < |a| ensures cmp(a[i].0, a[j].0) < 0 { assert cmp(s[i].0, s[j].0) < 0; }
    forall i, j | 0 <= i < j < |b| ensures cmp(b[i].0, b[j].0) < 0 {
      assert cmp(s[|a| + 1 + i].0, s[|a| + 1 + j].0) < 0;
    }
    forall i | 0 <= i < |a| ensures cmp(a[i].0, x.0) < 0 { assert cmp(s[i].0, s[|a|].0) < 0; }
    forall i | 0 <= i < |b| ensures cmp(x.0, b[i].0) < 0 { assert cmp(s[|a|].0, s[|a| + 1 + i].0) < 0; }
  }

  /** A key above everything in a passes over a. */
  lemma {:induction false} PassOver<K(!new), V>(cmp: Comparator<K>, a: seq<(K, V)>, t: seq<(K, V)>, k: K, v: V)
    requires forall i :: 0 <= i < |a| ==> cmp(k, a[i].0) > 0
    ensures Insert(cmp, a + t, k, v) == a + Insert(cmp, t, k, v)
    ensures Remove(cmp, a + t, k) == a + Remove(cmp, t, k)
    ensures Find(cmp, a + t, k) == Find(cmp, t, k)
  {
    if a == [] {
      assert a + t == t;
    } else {
      assert (a + t)[0] == a[0] && (a + t)[1..] == a[1..] + t;
      PassOver(cmp, a[1..], t, k, v);
      Cons(a, Insert(cmp, t, k, v));
      Cons(a, Remove(cmp, t, k));
    }
  }

  lemma Cons<T>(a: seq<T>, t: seq<T>)
    requires a != []
    ensures a + t == [a[0]] + (a[1..] + t)
  {}

  /** A key below everything in t stays in front of it. */
  lemma {:induction false} StayInFront<K(!new), V>(cmp: Comparator<K>, a: seq<(K, V)>, t: seq<(K, V)>, k: K, v: V)
    requires t != [] && forall i :: 0 <= i < |t| ==> cmp(k, t[i].0) < 0
    ensures Insert(cmp, a + t, k, v) == Insert(cmp, a, k, v) + t
    ensures Remove(cmp, a + t, k) == Remove(cmp, a, k) + t
    ensures Find(cmp, a + t, k) == Find(cmp, a, k)
  {
    if a == [] {
      assert a + t == t;
      NotThere(cmp, t, k);
    } else {
      assert (a + t)[0] == a[0] && (a + t)[1..] == a[1..] + t;
      if cmp(k, a[0].0) > 0 {
        StayInFront(cmp, a[1..], t, k, v);
        assert [a[0]] + (Insert(cmp, a[1..], k, v) + t) == [a[0]] + Insert(cmp, a[1..], k, v) + t;
        assert [a[0]] + (Remove(cmp, a[1..], k) + t) == [a[0]] + Remove(cmp, a[1..], k) + t;
      } else if cmp(k, a[0].0) == 0 {
        assert [(a[0].0, v)] + (a[1..] + t) == [(a[0].0, v)] + a[1..] + t;
      } else {
        StayInFront(cmp, a[1..], t, k, v);
        assert [(k, v)] + (a + t) == [(k, v)] + a + t;
        assert [a[0]] + (Remove(cmp, a[1..], k) + t) == [a[0]] + Remove(cmp, a[1..], k) + t;
      }
    }
  }

  lemma {:induction false} NotThere<K, V>(cmp: Comparator<K>, t: seq<(K, V)>, k: K)
    requires forall i :: 0 <= i < |t| ==> cmp(k, t[i].0) != 0
    ensures Remove(cmp, t, k) == t && Find(cmp, t, k) == None
  {
    if t != [] { NotThere(cmp, t[1..], k); }
  }

  /** A key below the one in the middle is dealt with on the left. */
  lemma {:induction false} OnTheLeft<K(!new), V>(cmp: Comparator<K>, a: seq<(K, V)>, x: (K, V), b: seq<(K, V)>,
                                               k: K, v: V)
    requires TotalOrder(cmp) && Sorted(cmp, a + [x] + b) && cmp(k, x.0) < 0
    ensures Insert(cmp, a + [x] + b, k, v) == Insert(cmp, a, k, v) + [x] + b
    ensures Remove(cmp, a + [x] + b, k) == Remove(cmp, a, k) + [x] + b
    ensures Find(cmp, a + [x] + b, k) == Find(cmp, a, k)
  {
    SortedParts(cmp, a, x, b);
    var t := [x] + b;
    assert a + [x] + b == a + t;
    forall i | 0 <= i < |t| ensures cmp(k, t[i].0) < 0 { if i > 0 { Transitive(cmp, k, x.0, b[i - 1].0); } }
    hide TotalOrder, Sorted, Insert, Remove, Find;
    StayInFront(cmp, a, t, k, v);
    assert Insert(cmp, a, k, v) + t == Insert(cmp, a, k, v) + [x] + b;
    assert Remove(cmp, a, k) + t == Remove(cmp, a, k) + [x] + b;
  }

  /** A key above the one in the middle is dealt with on the right, the key itself in the middle. */
  lemma {:induction false} OnTheRight<K(!new), V>(cmp: Comparator<K>, a: seq<(K, V)>, x: (K, V), b: seq<(K, V)>,
                                                k: K, v: V)
    requires TotalOrder(cmp) && Sorted(cmp, a + [x] + b) && cmp(k, x.0) >= 0
    ensures cmp(k, x.0) > 0 ==> Insert(cmp, a + [x] + b, k, v) == a + [x] + Insert(cmp, b, k, v)
    ensures cmp(k, x.0) > 0 ==> Remove(cmp, a + [x] + b, k) == a + [x] + Remove(cmp, b, k)
    ensures cmp(k, x.0) > 0 ==> Find(cmp, a + [x] + b, k) == Find(cmp, b, k)
    ensures cmp(k, x.0) == 0 ==> Insert(cmp, a + [x] + b, k, v) == a + [(x.0, v)] + b
    ensures cmp(k, x.0) == 0 ==> Remove(cmp, a + [x] + b, k) == a + b
    ensures cmp(k, x.0) == 0 ==> Find(cmp, a + [x] + b, k) == Some(x.1)
  {
    SortedParts(cmp, a, x, b);
    Order(cmp, k, x.0);
    forall i | 0 <= i < |a| ensures cmp(k, a[i].0) > 0 {
      Order(cmp, a[i].0, k);
      if cmp(k, x.0) > 0 {
        Order(cmp, x.0, k);
        Transitive(cmp, a[i].0, x.0, k);
      }
    }
    var t := [x] + b;
    assert a + [x] + b == a + t;
    assert t[0] == x && t[1..] == b;
    hide TotalOrder, Sorted;
    PassOver(cmp, a, t, k, v);
    Middle(cmp, a, x, b, k, v);
  }

  lemma Middle<K, V>(cmp: Comparator<K>, a: seq<(K, V)>, x: (K, V), b: seq<(K, V)>, k: K, v: V)
    requires cmp(k, x.0) >= 0
    ensures var t := [x] + b;
      && (cmp(k, x.0) > 0 ==>
          && a + Insert(cmp, t, k, v) == a + [x] + Insert(cmp, b, k, v)
          && a + Remove(cmp, t, k) == a + [x] + Remove(cmp, b, k) && Find(cmp, t, k) == Find(cmp, b, k))
      && (cmp(k, x.0) == 0 ==>
          && a + Insert(cmp, t, k, v) == a + [(x.0, v)] + b && a + Remove(cmp, t, k) == a + b
          && Find(cmp, t, k) == Some(x.1))
  {
    var t := [x] + b;
    assert t[0] == x && t[1..] == b;
    InsertCases(cmp, t, k, v);
    RemoveCases(cmp, t, k);
    hide Insert, Remove, Find;
    Assoc(a, x, Insert(cmp, b, k, v));
    Assoc(a, x, Remove(cmp, b, k));
    Assoc(a, (x.0, v), b);
  }

  lemma Assoc<T>(a: seq<T>, x: T, b: seq<T>)
    ensures a + ([x] + b) == a + [x] + b
  {}

  lemma RemoveCases<K, V>(cmp: Comparator<K>, s: seq<(K, V)>, k: K)
    requires s != []
    ensures cmp(k, s[0].0) != 0 ==>
      && Remove(cmp, s, k) == [s[0]] + Remove(cmp, s[1..], k) && Find(cmp, s, k) == Find(cmp, s[1..], k)
    ensures cmp(k, s[0].0) == 0 ==> Remove(cmp, s, k) == s[1..] && Find(cmp, s, k) == Some(s[0].1)
  {}

  /** The subtree in which an insertion continues, and what it does to the whole. */
  lemma InsertParts<K(!new), V>(cmp: Comparator<K>, a: seq<(K, V)>, x: (K, V), b: seq<(K, V)>, k: K, v: V)
    requires TotalOrder(cmp) && Sorted(cmp, a + [x] + b)
    ensures Sorted(cmp, a) && Sorted(cmp, b)
    ensures cmp(k, x.0) < 0 ==>
      && Insert(cmp, a + [x] + b, k, v) == Insert(cmp, a, k, v) + [x] + b
      && Find(cmp, a + [x] + b, k) == Find(cmp, a, k)
    ensures cmp(k, x.0) > 0 ==>
      && Insert(cmp, a + [x] + b, k, v) == a + [x] + Insert(cmp, b, k, v)
      && Find(cmp, a + [x] + b, k) == Find(cmp, b, k)
    ensures cmp(k, x.0) == 0 ==>
      && Insert(cmp, a + [x] + b, k, v) == a + [(x.0, v)] + b && Find(cmp, a + [x] + b, k) == Some(x.1)
  {
    SortedParts(cmp, a, x, b);
    if cmp(k, x.0) < 0 { OnTheLeft(cmp, a, x, b, k, v); } else { OnTheRight(cmp, a, x, b, k, v); }
  }

  lemma RemoveParts<K(!new), V>(cmp: Comparator<K>, a: seq<(K, V)>, x: (K, V), b: seq<(K, V)>, k: K)
    requires TotalOrder(cmp) && Sorted(cmp, a + [x] + b)
    ensures Sorted(cmp, a) && Sorted(cmp, b)
    ensures cmp(k, x.0) < 0 ==>
      && Remove(cmp, a + [x] + b, k) == Remove(cmp, a, k) + [x] + b && Find(cmp, a + [x] + b, k) == Find(cmp, a, k)
    ensures cmp(k, x.0) > 0 ==>
      && Remove(cmp, a + [x] + b, k) == a + [x] + Remove(cmp, b, k) && Find(cmp, a + [x] + b, k) == Find(cmp, b, k)
    ensures cmp(k, x.0) == 0 ==> Remove(cmp, a + [x] + b, k) == a + b && Find(cmp, a + [x] + b, k) == Some(x.1)
  {
    SortedParts(cmp, a, x, b);
    if cmp(k, x.0) < 0 { OnTheLeft(cmp, a, x, b, k, x.1); } else { OnTheRight(cmp, a, x, b, k, x.1); }
  }
}
