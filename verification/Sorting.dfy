/** A stable sort by a comparison, as the source's array sorts are. */
module Sorting {

  /** Inserts behind every element that may stand before `x`. */
  function Insert<T>(sorted: seq<T>, x: T, leq: (T, T) -> bool): seq<T> {
    if sorted == [] || leq(sorted[|sorted| - 1], x) then sorted + [x]
    else Insert(sorted[..|sorted| - 1], x, leq) + [sorted[|sorted| - 1]]
  }

  function Sort<T>(s: seq<T>, leq: (T, T) -> bool): seq<T> {
    if s == [] then [] else Insert(Sort(s[..|s| - 1], leq), s[|s| - 1], leq)
  }

  ghost predicate Ordered<T>(s: seq<T>, leq: (T, T) -> bool) {
    forall i, j :: 0 <= i < j < |s| ==> leq(s[i], s[j])
  }

  ghost predicate TotalPreorder<T(!new)>(leq: (T, T) -> bool) {
    && (forall a, b :: leq(a, b) || leq(b, a))
    && (forall a, b, c :: leq(a, b) && leq(b, c) ==> leq(a, c))
  }

  function Filter<T>(s: seq<T>, p: T -> bool): seq<T> {
    if s == [] then [] else Filter(s[..|s| - 1], p) + if p(s[|s| - 1]) then [s[|s| - 1]] else []
  }

  lemma FilterSnoc<T>(s: seq<T>, x: T, p: T -> bool)
    ensures Filter(s + [x], p) == Filter(s, p) + if p(x) then [x] else []
  {
    assert (s + [x])[..|s|] == s;
  }

  lemma {:induction false} InsertOrders<T(!new)>(sorted: seq<T>, x: T, leq: (T, T) -> bool)
    requires TotalPreorder(leq) && Ordered(sorted, leq)
    ensures Ordered(Insert(sorted, x, leq), leq)
  {
    var n := |sorted| - 1;
    InsertKeepsAll(sorted, x, leq);
    if sorted == [] || leq(sorted[n], x) {
    } else {
      InsertOrders(sorted[..n], x, leq);
      InsertKeepsAll(sorted[..n], x, leq);
      var front := Insert(sorted[..n], x, leq);
      forall i | 0 <= i < |front| ensures leq(front[i], sorted[n]) {
        assert front[i] in multiset(front);
      }
    }
  }

  lemma {:induction false} InsertKeepsAll<T>(sorted: seq<T>, x: T, leq: (T, T) -> bool)
    ensures multiset(Insert(sorted, x, leq)) == multiset(sorted) + multiset{x}
  {
    var n := |sorted| - 1;
    if sorted == [] || leq(sorted[n], x) {
    } else {
      InsertKeepsAll(sorted[..n], x, leq);
      assert sorted == sorted[..n] + [sorted[n]];
    }
  }

  /** Elements that all compare as equal keep their order. */
  lemma {:induction false} InsertIsStable<T(!new)>(sorted: seq<T>, x: T, leq: (T, T) -> bool, p: T -> bool)
    requires forall a, b :: p(a) && p(b) ==> leq(a, b)
    ensures Filter(Insert(sorted, x, leq), p) == Filter(sorted, p) + if p(x) then [x] else []
  {
    var n := |sorted| - 1;
    if sorted == [] || leq(sorted[n], x) {
      FilterSnoc(sorted, x, p);
    } else {
      InsertIsStable(sorted[..n], x, leq, p);
      FilterSnoc(Insert(sorted[..n], x, leq), sorted[n], p);
    }
  }

  lemma {:induction false} SortOrders<T(!new)>(s: seq<T>, leq: (T, T) -> bool)
    requires TotalPreorder(leq)
    ensures Ordered(Sort(s, leq), leq)
  {
    if s == [] {
    } else {
      SortOrders(s[..|s| - 1], leq);
      InsertOrders(Sort(s[..|s| - 1], leq), s[|s| - 1], leq);
    }
  }

  lemma {:induction false} SortKeepsAll<T>(s: seq<T>, leq: (T, T) -> bool)
    ensures multiset(Sort(s, leq)) == multiset(s)
  {
    if s == [] {
    } else {
      var n := |s| - 1;
      SortKeepsAll(s[..n], leq);
      var front := Sort(s[..n], leq);
      assert Sort(s, leq) == Insert(front, s[n], leq);
      hide Insert, Sort;
      InsertKeepsAll(front, s[n], leq);
      assert s == s[..n] + [s[n]];
    }
  }

  lemma {:induction false} SortIsStable<T(!new)>(s: seq<T>, leq: (T, T) -> bool, p: T -> bool)
    requires forall a, b :: p(a) && p(b) ==> leq(a, b)
    ensures Filter(Sort(s, leq), p) == Filter(s, p)
  {
    if s == [] {
    } else {
      var n := |s| - 1;
      SortIsStable(s[..n], leq, p);
      InsertIsStable(Sort(s[..n], leq), s[n], leq, p);
    }
  }

  lemma SortMembers<T>(s: seq<T>, leq: (T, T) -> bool)
    ensures |Sort(s, leq)| == |s|
    ensures forall x :: x in Sort(s, leq) <==> x in s
  {
    SortKeepsAll(s, leq);
    assert |multiset(Sort(s, leq))| == |multiset(s)|;
    forall x ensures x in Sort(s, leq) <==> x in s {
      assert x in multiset(Sort(s, leq)) <==> x in multiset(s);
    }
  }
}
