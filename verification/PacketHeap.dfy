/** The reorder buffer: a slice of item pointers kept as a binary min-heap by the
    sift-up and sift-down of Go's container/heap. */
module PacketHeaps {
  import opened Packets

  class PacketItem {
    const item: Item
    var index: int

    constructor (item: Item)
      ensures this.item == item
    {
      this.item := item;
      index := 0;
    }
  }

  function Parent(k: int): (p: int)
    requires 1 <= k
    ensures 0 <= p < k
    ensures k == 2 * p + 1 || k == 2 * p + 2
  {
    (k - 1) / 2
  }

  ghost function Items(slots: seq<PacketItem>): (r: seq<Item>)
    ensures |r| == |slots|
    ensures forall i :: 0 <= i < |r| ==> r[i] == slots[i].item
  {
    seq(|slots|, i requires 0 <= i < |slots| => slots[i].item)
  }

  function Swapped<T>(s: seq<T>, i: int, j: int): (r: seq<T>)
    requires 0 <= i < |s| && 0 <= j < |s|
    ensures |r| == |s| && r[i] == s[j] && r[j] == s[i]
    ensures forall k :: 0 <= k < |s| && k != i && k != j ==> r[k] == s[k]
    ensures multiset(r) == multiset(s)
  {
    s[i := s[j]][j := s[i]]
  }

  /** Each of the first n slots other than `hole` is at least its parent. */
  ghost predicate HeapExceptChild(s: seq<Item>, n: int, hole: int)
    requires n <= |s|
  {
    forall k {:trigger Parent(k)} :: 1 <= k < n && k != hole ==> AtMost(s[Parent(k)], s[k])
  }

  /** Each of the first n slots whose parent is not `hole` is at least its parent. */
  ghost predicate HeapExceptParent(s: seq<Item>, n: int, hole: int)
    requires n <= |s|
  {
    forall k {:trigger Parent(k)} :: 1 <= k < n && Parent(k) != hole ==> AtMost(s[Parent(k)], s[k])
  }

  /** The children of `hole` are at least the parent of `hole`. */
  ghost predicate BridgesHole(s: seq<Item>, n: int, hole: int)
    requires n <= |s|
  {
    forall k {:trigger Parent(k)} :: 1 <= k < n && Parent(k) == hole && 1 <= hole ==> AtMost(s[Parent(hole)], s[k])
  }

  ghost predicate HeapUpTo(s: seq<Item>, n: int)
    requires n <= |s|
  {
    forall k {:trigger Parent(k)} :: 1 <= k < n ==> AtMost(s[Parent(k)], s[k])
  }

  ghost predicate IsHeap(s: seq<Item>) {
    HeapUpTo(s, |s|)
  }

  /** One step of sift-up moves the hole to its parent. */
  lemma UpStep(s: seq<Item>, j: int)
    requires 1 <= j < |s| && Less(s[j], s[Parent(j)])
    requires HeapExceptChild(s, |s|, j) && BridgesHole(s, |s|, j)
    ensures HeapExceptChild(Swapped(s, Parent(j), j), |s|, Parent(j))
    ensures BridgesHole(Swapped(s, Parent(j), j), |s|, Parent(j))
  {
    var p := Parent(j);
    var t := Swapped(s, p, j);
    forall k | 1 <= k < |s| && k != p ensures AtMost(t[Parent(k)], t[k]) {
      if k != j {
        assert AtMost(s[Parent(k)], s[k]);
      }
    }
    forall k | 1 <= k < |s| && Parent(k) == p && 1 <= p ensures AtMost(t[Parent(p)], t[k]) {
      assert AtMost(s[Parent(p)], s[p]);
      if k != j {
        assert AtMost(s[Parent(k)], s[k]);
      }
    }
  }

  /** One step of sift-down moves the hole to its smaller child. */
  lemma DownStep(s: seq<Item>, n: int, i: int, j: int)
    requires 0 <= i && 1 <= j < n <= |s| && Parent(j) == i && Less(s[j], s[i])
    requires forall k :: 1 <= k < n && Parent(k) == i ==> AtMost(s[j], s[k])
    requires HeapExceptParent(s, n, i) && BridgesHole(s, n, i)
    ensures HeapExceptParent(Swapped(s, i, j), n, j)
    ensures BridgesHole(Swapped(s, i, j), n, j)
  {
    var t := Swapped(s, i, j);
    forall k | 1 <= k < n && Parent(k) != j ensures AtMost(t[Parent(k)], t[k]) {
      if Parent(k) != i && k != i {
        assert AtMost(s[Parent(k)], s[k]);
      } else if k == i {
        assert AtMost(s[Parent(i)], s[j]);
      }
    }
    forall k | 1 <= k < n && Parent(k) == j ensures AtMost(t[Parent(j)], t[k]) {
      assert AtMost(s[Parent(k)], s[k]);
    }
  }

  /** Moving the last slot to the root leaves a hole only there. */
  lemma RootHole(s: seq<Item>)
    requires IsHeap(s) && s != []
    ensures HeapExceptParent(Swapped(s, 0, |s| - 1), |s| - 1, 0)
  {
    forall k | 1 <= k < |s| - 1 && Parent(k) != 0 ensures AtMost(s[Parent(k)], s[k]) {
    }
  }

  /** Cutting off the last slot. */
  lemma WithoutLast(s: seq<Item>)
    requires s != [] && HeapUpTo(s, |s| - 1)
    ensures IsHeap(s[..|s| - 1])
    ensures multiset(s[..|s| - 1]) == multiset(s) - multiset{s[|s| - 1]}
  {
    assert s == s[..|s| - 1] + [s[|s| - 1]];
  }

  /** Sift-down may stop at a leaf. */
  lemma LeafHole(s: seq<Item>, n: int, i: int)
    requires 0 <= i && n <= |s| && 2 * i + 1 >= n && HeapExceptParent(s, n, i)
    ensures HeapUpTo(s, n)
  {
  }

  /** Sift-down may stop once the smaller child is not below the hole. */
  lemma NoHole(s: seq<Item>, n: int, i: int, j: int)
    requires 0 <= i && 1 <= j < n <= |s| && Parent(j) == i && !Less(s[j], s[i])
    requires forall k :: 1 <= k < n && Parent(k) == i ==> AtMost(s[j], s[k])
    requires HeapExceptParent(s, n, i)
    ensures HeapUpTo(s, n)
  {
    forall k | 1 <= k < n ensures AtMost(s[Parent(k)], s[k]) {
      if Parent(k) == i {
        assert AtMost(s[j], s[k]);
      }
    }
  }

  lemma {:induction false} RootAtMost(s: seq<Item>, k: int)
    requires IsHeap(s) && 0 <= k < |s|
    ensures AtMost(s[0], s[k])
    decreases k
  {
    if k > 0 {
      RootAtMost(s, Parent(k));
      assert AtMost(s[Parent(k)], s[k]);
    }
  }

  lemma RootIsLeast(s: seq<Item>)
    requires IsHeap(s) && s != []
    ensures LeastOf(s[0], multiset(s))
  {
    assert s[0] in multiset(s);
    forall y | y in multiset(s) ensures AtMost(s[0], y) {
      assert y in s;
      var k :| 0 <= k < |s| && s[k] == y;
      RootAtMost(s, k);
    }
  }

  class PacketHeap {
    var slots: seq<PacketItem>
    ghost var nodes: set<PacketItem>

    /** Every item's index field is its position; so no item is in two slots. */
    ghost predicate Indexed()
      reads this, nodes
    {
      forall i :: 0 <= i < |slots| ==> slots[i] in nodes && slots[i].index == i
    }

    ghost predicate Valid()
      reads this, nodes
    {
      Indexed() && IsHeap(Items(slots))
    }

    ghost function Contents(): multiset<Item>
      reads this
    {
      multiset(Items(slots))
    }

    constructor ()
      ensures Valid() && slots == [] && nodes == {}
    {
      slots, nodes := [], {};
    }

    method Swap(i: int, j: int)
      requires 0 <= i < |slots| && 0 <= j < |slots| && Indexed()
      modifies this`slots, nodes
      ensures Indexed() && |slots| == old(|slots|)
      ensures Items(slots) == Swapped(old(Items(slots)), i, j)
    {
      slots := slots[i := slots[j]][j := slots[i]];
      slots[i].index := i;
      slots[j].index := j;
    }

    method Up(start: int)
      requires 0 <= start < |slots| && Indexed()
      requires HeapExceptChild(Items(slots), |slots|, start)
      requires BridgesHole(Items(slots), |slots|, start)
      modifies this`slots, nodes
      ensures Valid() && |slots| == old(|slots|) && Contents() == old(Contents())
    {
      var j := start;
      while j > 0
        invariant 0 <= j < |slots| == old(|slots|) && Indexed()
        invariant HeapExceptChild(Items(slots), |slots|, j)
        invariant BridgesHole(Items(slots), |slots|, j)
        invariant Contents() == old(Contents())
      {
        var i := (j - 1) / 2;
        if !Less(slots[j].item, slots[i].item) {
          break;
        }
        UpStep(Items(slots), j);
        Swap(i, j);
        j := i;
      }
    }

    /** The child that sift-down compares with its parent. */
    method SmallerChild(left: int, n: int) returns (j: int)
      requires 1 <= left < n <= |slots| && left % 2 == 1
      ensures left <= j < n && Parent(j) == Parent(left)
      ensures forall k :: 1 <= k < n && Parent(k) == Parent(left) ==> AtMost(slots[j].item, slots[k].item)
    {
      j := left;
      if left + 1 < n && Less(slots[left + 1].item, slots[left].item) {
        j := left + 1;
      }
    }

    method Down(n: int)
      requires 0 <= n <= |slots| && Indexed()
      requires HeapExceptParent(Items(slots), n, 0)
      modifies this`slots, nodes
      ensures Indexed() && |slots| == old(|slots|)
      ensures n < |slots| ==> slots[n].item == old(slots[n].item)
      ensures HeapUpTo(Items(slots), n) && Contents() == old(Contents())
    {
      var i := 0;
      while true
        invariant 0 <= i && |slots| == old(|slots|) && Indexed()
        invariant HeapExceptParent(Items(slots), n, i)
        invariant BridgesHole(Items(slots), n, i)
        invariant n < |slots| ==> slots[n].item == old(slots[n].item)
        invariant Contents() == old(Contents())
        decreases n - i
      {
        var left := 2 * i + 1;
        if left >= n {
          LeafHole(Items(slots), n, i);
          break;
        }
        var j := SmallerChild(left, n);
        if !Less(slots[j].item, slots[i].item) {
          NoHole(Items(slots), n, i, j);
          break;
        }
        DownStep(Items(slots), n, i, j);
        Swap(i, j);
        i := j;
      }
    }

    /** `heap.Push` of a fresh item, as pushPacket calls it. */
    method Push(template: Template, packet: Packet, receivedAt: Time)
      requires Valid()
      modifies this, nodes
      ensures Valid() && fresh(nodes - old(nodes)) && |slots| == old(|slots|) + 1
      ensures Contents() == old(Contents()) + multiset{Item(template, packet, receivedAt)}
    {
      var item := new PacketItem(Item(template, packet, receivedAt));
      item.index := |slots|;
      ghost var before := Items(slots);
      slots, nodes := slots + [item], nodes + {item};
      assert Items(slots) == before + [item.item];
      Up(|slots| - 1);
    }

    /** The slice's own Pop: cuts off the last slot. */
    method RemoveLast() returns (item: Item)
      requires Indexed() && slots != [] && HeapUpTo(Items(slots), |slots| - 1)
      modifies this`slots
      ensures Valid() && |slots| == old(|slots|) - 1 && item == old(slots[|slots| - 1].item)
      ensures Contents() == old(Contents()) - multiset{item}
    {
      var n := |slots| - 1;
      item := slots[n].item;
      WithoutLast(Items(slots));
      ghost var kept := Items(slots)[..n];
      slots := slots[..n];
      assert Items(slots) == kept;
    }

    /** Moves the root to the last slot and sifts the rest. */
    method SinkRoot()
      requires Valid() && slots != []
      modifies this`slots, nodes
      ensures Indexed() && |slots| == old(|slots|) && HeapUpTo(Items(slots), |slots| - 1)
      ensures slots[|slots| - 1].item == old(slots[0].item) && Contents() == old(Contents())
    {
      RootHole(Items(slots));
      var n := |slots| - 1;
      Swap(0, n);
      Down(n);
    }

    /** `heap.Pop`: takes the root out and restores the heap. */
    method Pop() returns (item: Item)
      requires Valid() && slots != []
      modifies this`slots, nodes
      ensures Valid() && item == old(slots[0].item) && |slots| == old(|slots|) - 1
      ensures LeastOf(item, old(Contents())) && Contents() == old(Contents()) - multiset{item}
    {
      RootIsLeast(Items(slots));
      SinkRoot();
      item := RemoveLast();
    }
  }
}
