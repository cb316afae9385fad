/** The effect of Go's sort.Slice for a given `less`, as a function. */
module Sorting {

  ghost predicate Ordered<T>(s: seq<T>, less: (T, T) -> bool) {
    forall i, j :: 0 <= i < j < |s| ==> !less(s[j], s[i])
  }

  /** What sort.Slice asks of `less`. */
  ghost predicate WeakOrder<T(!new)>(less: (T, T) -> bool) {
    && (forall a, b :: less(a, b) ==> !less(b, a))
    && (forall a, b, c :: !less(b, a) && !less(c, b) ==> !less(c, a))
  }

  function Insert<T>(x: T, s: seq<T>, less: (T, T) -> bool): seq<T> {
    if s == [] || !less(x, s[|s| - 1]) then s + [x]
    else Insert(x, s[..|s| - 1], less) + [s[|s| - 1]]
  }

  function Sort<T>(s: seq<T>, less: (T, T) -> bool): seq<T> {
    if s == [] then [] else Insert(s[|s| - 1], Sort(s[..|s| - 1], less), less)
  }

  lemma {:induction false} InsertHolds<T>(x: T, s: seq<T>, less: (T, T) -> bool)
    ensures multiset(Insert(x, s, less)) == multiset(s) + multiset{x}
    ensures forall y :: y in Insert(x, s, less) <==> y in s || y == x
    decreases |s|
  {
    if s != [] && less(x, s[|s| - 1]) {
      InsertHolds(x, s[..|s| - 1], less);
      assert s == s[..|s| - 1] + [s[|s| - 1]];
    }
  }

  lemma OrderedPush<T>(s: seq<T>, x: T, less: (T, T) -> bool)
    requires Ordered(s, less) && forall y :: y in s ==> !less(x, y)
    ensures Ordered(s + [x], less)
  {
  }

  lemma LastIsGreatest<T(!new)>(s: seq<T>, x: T, less: (T, T) -> bool)
    requires Ordered(s, less) && WeakOrder(less) && s != [] && !less(x, s[|s| - 1])
    ensures forall y :: y in s ==> !less(x, y)
  {
    forall y | y in s ensures !less(x, y) {
      var i :| 0 <= i < |s| && s[i] == y;
      assert i == |s| - 1 || !less(s[|s| - 1], s[i]);
    }
  }

  lemma FrontIsBelow<T>(front: seq<T>, last: T, less: (T, T) -> bool)
    requires Ordered(front + [last], less)
    ensures Ordered(front, less) && forall y :: y in front ==> !less(last, y)
  {
    var s := front + [last];
    assert forall i :: 0 <= i < |front| ==> s[i] == front[i];
    forall y | y in front ensures !less(last, y) {
      var i :| 0 <= i < |front| && front[i] == y;
      assert !less(s[|front|], s[i]);
    }
  }

  lemma {:induction false} InsertSorts<T(!new)>(x: T, s: seq<T>, less: (T, T) -> bool)
    requires Ordered(s, less) && WeakOrder(less)
    ensures Ordered(Insert(x, s, less), less)
    decreases |s|
  {
    if s == [] {
    } else if !less(x, s[|s| - 1]) {
      LastIsGreatest(s, x, less);
      OrderedPush(s, x, less);
    } else {
      var front, last := s[..|s| - 1], s[|s| - 1];
      assert s == front + [last];
      FrontIsBelow(front, last, less);
      InsertSorts(x, front, less);
      InsertHolds(x, front, less);
      assert !less(last, x);
      OrderedPush(Insert(x, front, less), last, less);
    }
  }

  lemma {:induction false} SortSorts<T(!new)>(s: seq<T>, less: (T, T) -> bool)
    requires WeakOrder(less)
    ensures Ordered(Sort(s, less), less) && multiset(Sort(s, less)) == multiset(s) && |Sort(s, less)| == |s|
    ensures forall y :: y in Sort(s, less) <==> y in s
    decreases |s|
  {
    if s != [] {
      var n := |s| - 1;
      SortSorts(s[..n], less);
      assert s == s[..n] + [s[n]];
      InsertSorts(s[n], Sort(s[..n], less), less);
      InsertHolds(s[n], Sort(s[..n], less), less);
      assert |multiset(Sort(s, less))| == |multiset(s)|;
    }
  }

  lemma {:induction false} SortOfOrdered<T>(s: seq<T>, less: (T, T) -> bool)
    requires Ordered(s, less)
    ensures Sort(s, less) == s
    decreases |s|
  {
    if s != [] {
      var front, last := s[..|s| - 1], s[|s| - 1];
      assert s == front + [last];
      FrontIsBelow(front, last, less);
      hide Ordered;
      SortOfOrdered(front, less);
      InsertAtEnd(last, front, less);
    }
  }

  lemma InsertAtEnd<T>(x: T, s: seq<T>, less: (T, T) -> bool)
    requires forall y :: y in s ==> !less(x, y)
    ensures Insert(x, s, less) == s + [x]
  {
    if s != [] {
      assert s[|s| - 1] in s;
    }
  }
}
