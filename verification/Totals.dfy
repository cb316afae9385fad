/** Adding up sizes over a list, whichever way the list is taken apart or sorted. */
module Totals {
  import Sorting

  function Total<T>(s: seq<T>, size: T -> nat): nat {
    if s == [] then 0 else Total(s[..|s| - 1], size) + size(s[|s| - 1])
  }

  lemma TotalPush<T>(s: seq<T>, x: T, size: T -> nat)
    ensures Total(s + [x], size) == Total(s, size) + size(x)
  {
    assert (s + [x])[..|s|] == s;
  }

  lemma {:induction false} TotalHead<T>(s: seq<T>, size: T -> nat)
    requires s != []
    ensures Total(s, size) == size(s[0]) + Total(s[1..], size)
    decreases |s|
  {
    var n := |s| - 1;
    if n > 0 {
      TotalHead(s[..n], size);
      assert s[..n][1..] == s[1..][..n - 1];
    } else {
      assert s[..0] == s[1..] == [];
    }
  }

  lemma {:induction false} TotalAppend<T>(a: seq<T>, b: seq<T>, size: T -> nat)
    ensures Total(a + b, size) == Total(a, size) + Total(b, size)
    decreases |b|
  {
    if b == [] {
      assert a + b == a;
    } else {
      TotalAppend(a, b[..|b| - 1], size);
      assert (a + b)[..|a + b| - 1] == a + b[..|b| - 1];
    }
  }

  lemma {:induction false} TotalInsert<T>(x: T, s: seq<T>, less: (T, T) -> bool, size: T -> nat)
    ensures Total(Sorting.Insert(x, s, less), size) == Total(s, size) + size(x)
    decreases |s|
  {
    if s == [] || !less(x, s[|s| - 1]) {
      TotalPush(s, x, size);
    } else {
      TotalInsert(x, s[..|s| - 1], less, size);
      TotalPush(Sorting.Insert(x, s[..|s| - 1], less), s[|s| - 1], size);
    }
  }

  lemma {:induction false} TotalSort<T>(s: seq<T>, less: (T, T) -> bool, size: T -> nat)
    ensures Total(Sorting.Sort(s, less), size) == Total(s, size)
    decreases |s|
  {
    if s != [] {
      var front := s[..|s| - 1];
      TotalSort(front, less, size);
      TotalInsert(s[|s| - 1], Sorting.Sort(front, less), less, size);
    }
  }
}
