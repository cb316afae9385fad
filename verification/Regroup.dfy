/** What one call of emitUntil does as a whole, said without its loops: sort the buffer, take
    packets while they are ready, and cut what was taken into batches greedily. */
module Regroup {
  import opened Packets
  import opened StreamModel
  import Sorting

  // ---------- Sort, then take while ready ----------

  ghost function TakeReady(config: Config, mode: Mode, sorted: seq<Item>): seq<Item> {
    if sorted == [] || !Ready(config, mode, sorted[0]) then []
    else [sorted[0]] + TakeReady(config, mode, sorted[1..])
  }

  /** `out` is what leaves a buffer that is sorted and then taken from while its head is ready. */
  ghost predicate SortThenTake(config: Config, mode: Mode, before: multiset<Item>, out: seq<Item>, after: multiset<Item>) {
    exists sorted :: Ordered(sorted) && multiset(sorted) == before
                     && out == TakeReady(config, mode, sorted) && after == before - multiset(out)
  }

  lemma {:induction false} TakeReadyStops(config: Config, mode: Mode, out: seq<Item>, tail: seq<Item>)
    requires forall i :: 0 <= i < |out| ==> Ready(config, mode, out[i])
    requires tail == [] || !Ready(config, mode, tail[0])
    ensures TakeReady(config, mode, out + tail) == out
    decreases |out|
  {
    if out == [] {
      assert out + tail == tail;
    } else {
      TakeReadyStops(config, mode, out[1..], tail);
      assert (out + tail)[1..] == out[1..] + tail;
    }
  }

  lemma SortExists(s: seq<Item>) returns (t: seq<Item>)
    ensures Ordered(t) && multiset(t) == multiset(s)
  {
    assert Sorting.WeakOrder(Less);
    Sorting.SortSorts(s, Less);
    t := Sorting.Sort(s, Less);
  }

  lemma OrderedAppend(a: seq<Item>, b: seq<Item>)
    requires Ordered(a) && Ordered(b)
    requires forall i, x :: 0 <= i < |a| && x in multiset(b) ==> AtMost(a[i], x)
    ensures Ordered(a + b)
  {
    forall i, j | 0 <= i < j < |a + b| ensures AtMost((a + b)[i], (a + b)[j]) {
      if i < |a| <= j {
        assert b[j - |a|] in multiset(b);
      }
    }
  }

  /** Taking the least packets one by one until the heap is empty or its head is not ready is
      sorting and taking while ready. */
  lemma PopsAreSortThenTake(config: Config, mode: Mode, before: multiset<Item>, out: seq<Item>, heap: seq<Item>)
    requires LeastFirst(before, out) && multiset(heap) == before - multiset(out)
    requires forall i :: 0 <= i < |out| ==> Ready(config, mode, out[i])
    requires heap == [] || (LeastOf(heap[0], multiset(heap)) && !Ready(config, mode, heap[0]))
    ensures SortThenTake(config, mode, before, out, multiset(heap))
  {
    hide AtMost, Ordered, Ready, SortThenTake;
    var tail := SortFromHead(heap);
    OrderedAppend(out, tail);
    TakeReadyStops(config, mode, out, tail);
    MultisetJoin(before, out, tail);
    SortThenTakeFrom(config, mode, before, out, multiset(heap), out + tail);
  }

  lemma SortThenTakeFrom(config: Config, mode: Mode, before: multiset<Item>, out: seq<Item>, after: multiset<Item>, sorted: seq<Item>)
    requires Ordered(sorted) && multiset(sorted) == before
    requires out == TakeReady(config, mode, sorted) && after == before - multiset(out)
    ensures SortThenTake(config, mode, before, out, after)
  {
  }

  lemma MultisetJoin(whole: multiset<Item>, a: seq<Item>, b: seq<Item>)
    requires multiset(a) <= whole && multiset(b) == whole - multiset(a)
    ensures multiset(a + b) == whole
  {
    assert multiset(a + b) == multiset(a) + multiset(b);
  }

  lemma SortFromHead(heap: seq<Item>) returns (tail: seq<Item>)
    requires heap == [] || LeastOf(heap[0], multiset(heap))
    ensures Ordered(tail) && multiset(tail) == multiset(heap) && |tail| == |heap|
    ensures heap != [] ==> tail[0] == heap[0]
  {
    if heap == [] {
      tail := [];
    } else {
      var others := SortExists(heap[1..]);
      assert heap == [heap[0]] + heap[1..];
      tail := [heap[0]] + others;
      assert multiset(tail) == multiset(heap);
      assert |multiset(tail)| == |multiset(heap)|;
      forall x | x in multiset(others) ensures AtMost(heap[0], x) {
        assert x in multiset(heap);
      }
      OrderedAppend([heap[0]], others);
    }
  }

  /** Nothing is held back: once every buffered packet is ready, a call empties the buffer. */
  lemma ReadyLeavesAll(config: Config, mode: Mode, before: multiset<Item>, out: seq<Item>, after: multiset<Item>)
    requires SortThenTake(config, mode, before, out, after)
    requires forall x :: x in before ==> Ready(config, mode, x)
    ensures multiset(out) == before && after == multiset{}
  {
    hide Ready, Ordered;
    var sorted :| Ordered(sorted) && multiset(sorted) == before && out == TakeReady(config, mode, sorted);
    forall i | 0 <= i < |sorted| ensures Ready(config, mode, sorted[i]) {
      assert sorted[i] in multiset(sorted);
    }
    TakeReadyStops(config, mode, sorted, []);
    assert sorted + [] == sorted;
  }

  // ---------- Greedy batches ----------

  /** How many of `items` the batch that begins with its first n takes. */
  ghost function FirstGroup(config: Config, items: seq<Item>, n: nat): (r: nat)
    requires 1 <= n <= |items|
    ensures n <= r <= |items|
    decreases |items| - n
  {
    if n < |items| && Joins(config, items[..n], items[n]) then FirstGroup(config, items, n + 1) else n
  }

  ghost function Groups(config: Config, items: seq<Item>): seq<seq<Item>>
    decreases |items|
  {
    if items == [] then []
    else var n := FirstGroup(config, items, 1); [items[..n]] + Groups(config, items[n..])
  }

  function Concat(groups: seq<seq<Item>>): seq<Item> {
    if groups == [] then [] else groups[0] + Concat(groups[1..])
  }

  /** Each group has grown, and none could have taken the first item of the next. */
  ghost predicate Greedy(config: Config, groups: seq<seq<Item>>) {
    && (forall k :: 0 <= k < |groups| ==> Grown(config, groups[k]))
    && (forall k :: 0 <= k < |groups| - 1 ==> !Joins(config, groups[k], groups[k + 1][0]))
  }

  lemma {:induction false} FirstGroupIs(config: Config, group: seq<Item>, rest: seq<Item>, n: nat)
    requires Grown(config, group) && 1 <= n <= |group|
    requires rest == [] || !Joins(config, group, rest[0])
    ensures FirstGroup(config, group + rest, n) == |group|
    decreases |group| - n
  {
    var all := group + rest;
    assert all[..n] == group[..n];
    if n < |group| {
      assert Joins(config, group[..n], group[n]);
      hide Joins, Grown;
      FirstGroupIs(config, group, rest, n + 1);
    } else {
      assert group[..n] == group;
    }
  }

  /** Batches that are greedy in this local sense are the ones the greedy cut computes. */
  lemma {:induction false} GreedyIsUnique(config: Config, groups: seq<seq<Item>>)
    requires Greedy(config, groups)
    ensures Groups(config, Concat(groups)) == groups
    decreases |groups|
  {
    if groups != [] {
      var group, others := groups[0], groups[1..];
      GreedyTail(config, groups);
      GreedyIsUnique(config, others);
      var rest := Concat(others);
      assert group != [] && (others != [] ==> rest != [] && rest[0] == others[0][0]);
      hide Greedy, Grown, Joins, Concat;
      FirstGroupIs(config, group, rest, 1);
      CutOff(config, group, rest);
    }
  }

  lemma GreedyTail(config: Config, groups: seq<seq<Item>>)
    requires Greedy(config, groups) && groups != []
    ensures Greedy(config, groups[1..]) && Grown(config, groups[0])
    ensures forall k :: 0 <= k < |groups| ==> groups[k] != []
    ensures |groups| > 1 ==> !Joins(config, groups[0], groups[1][0])
  {
    assert forall k :: 0 <= k < |groups| ==> groups[k] != [];
    hide Grown, Joins;
    var others := groups[1..];
    assert forall k :: 0 <= k < |others| ==> others[k] == groups[k + 1];
  }

  lemma CutOff(config: Config, group: seq<Item>, rest: seq<Item>)
    requires group != [] && FirstGroup(config, group + rest, 1) == |group|
    ensures Groups(config, group + rest) == [group] + Groups(config, rest)
  {
    assert (group + rest)[..|group|] == group && (group + rest)[|group|..] == rest;
  }

  lemma {:induction false} ConcatPush(groups: seq<seq<Item>>, group: seq<Item>)
    ensures Concat(groups + [group]) == Concat(groups) + group
    decreases |groups|
  {
    if groups == [] {
      assert groups + [group] == [group];
      assert Concat([group]) == group + Concat([]);
    } else {
      ConcatPush(groups[1..], group);
      assert (groups + [group])[1..] == groups[1..] + [group];
    }
  }
}
