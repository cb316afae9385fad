/** The benchmark analyzer: a bitset of the sequence numbers seen, the counters kept beside it, a
    bounded latency sample, and nearest-rank percentiles. */
module Analyzers {
  import opened Packets
  import Header
  import Sorting

  const MAX_SAMPLES := 1_000_000

  // ---------- Bits ----------

  function Power2(n: nat): nat {
    if n == 0 then 1 else 2 * Power2(n - 1)
  }

  /** A 64-bit word. */
  type Word64 = x: int | 0 <= x < 0x1_0000_0000_0000_0000

  /** Is `w & (1 << k)` non-zero? */
  predicate IsSet(w: nat, k: nat) {
    if k == 0 then w % 2 == 1 else IsSet(w / 2, k - 1)
  }

  /** `w | (1 << m)` */
  function WithBit(w: nat, m: nat): nat {
    if m == 0 then (if w % 2 == 1 then w else w + 1) else 2 * WithBit(w / 2, m - 1) + w % 2
  }

  /** Setting bit m changes bit m and no other. */
  lemma {:induction false} SetOne(w: nat, m: nat, k: nat)
    ensures IsSet(WithBit(w, m), k) <==> k == m || IsSet(w, k)
    decreases m
  {
    Halved(w, m);
    if m > 0 && k > 0 {
      SetOne(w / 2, m - 1, k - 1);
    }
  }

  lemma Halved(w: nat, m: nat)
    ensures WithBit(w, m) / 2 == if m == 0 then w / 2 else WithBit(w / 2, m - 1)
    ensures WithBit(w, m) % 2 == if m == 0 then 1 else w % 2
  {
  }

  lemma {:induction false} WithBitFits(w: nat, m: nat, n: nat)
    requires m < n && w < Power2(n)
    ensures WithBit(w, m) < Power2(n)
    decreases m
  {
    var half := Power2(n - 1);
    assert Power2(n) == 2 * half;
    if m > 0 {
      WithBitFits(w / 2, m - 1, n - 1);
      Doubled(WithBit(w / 2, m - 1), w % 2, half);
    } else {
      Doubled(w / 2, 1, half);
    }
  }

  lemma Doubled(q: nat, r: nat, half: nat)
    requires q < half && r < 2
    ensures 2 * q + r < 2 * half
  {
  }

  lemma WordLimit()
    ensures Power2(64) == 0x1_0000_0000_0000_0000
  {
    assert Power2(2) == 4;
    Square(2);
    Square(4);
    Square(8);
    Square(16);
    Square(32);
  }

  lemma {:induction false} Square(n: nat)
    ensures Power2(n + n) == Power2(n) * Power2(n)
  {
    PowerSum(n, n);
  }

  lemma {:induction false} PowerSum(a: nat, b: nat)
    ensures Power2(a + b) == Power2(a) * Power2(b)
    decreases b
  {
    if b > 0 {
      PowerSum(a, b - 1);
      TwiceProduct(Power2(a), Power2(b - 1));
    }
  }

  lemma TwiceProduct(x: nat, y: nat)
    ensures x * (2 * y) == 2 * (x * y)
  {
  }

  function OrBit(w: Word64, m: nat): Word64
    requires m < 64
  {
    WordLimit();
    WithBitFits(w, m, 64);
    WithBit(w, m)
  }

  lemma {:induction false} NothingSet(k: nat)
    ensures !IsSet(0, k)
  {
    if k > 0 {
      NothingSet(k - 1);
    }
  }

  /** Bit k of word k/64 stands for sequence number k. */
  ghost predicate Holds(words: seq<Word64>, expected: nat, members: set<nat>) {
    && |words| == (expected + 63) / 64
    && forall i: nat :: i < expected ==> (i in members <==> IsSet(words[i / 64], i % 64))
  }

  lemma HoldsAfterSet(words: seq<Word64>, expected: nat, members: set<nat>, x: nat)
    requires Holds(words, expected, members) && x < expected
    ensures Holds(words[x / 64 := OrBit(words[x / 64], x % 64)], expected, members + {x})
  {
    hide IsSet, WithBit;
    var after := words[x / 64 := OrBit(words[x / 64], x % 64)];
    forall i: nat | i < expected ensures i in members + {x} <==> IsSet(after[i / 64], i % 64) {
      if i / 64 == x / 64 {
        SetOne(words[x / 64], x % 64, i % 64);
        assert i % 64 == x % 64 <==> i == x;
      }
    }
  }

  // ---------- Sampling ----------

  function SampleEvery(expected: nat): (s: nat)
    ensures s >= 1 && expected <= s * 1_000_000 && (s == 1 || (s - 1) * 1_000_000 < expected)
  {
    if expected > MAX_SAMPLES then (expected + MAX_SAMPLES - 1) / MAX_SAMPLES else 1
  }

  function Sampled(members: set<nat>, every: nat): set<nat>
    requires every >= 1
  {
    set x | x in members && x % every == 0
  }

  /** At most c multiples of s lie below s * c. */
  lemma {:induction false} FewMultiples(multiples: set<nat>, s: nat, c: nat)
    requires s >= 1 && forall x :: x in multiples ==> x % s == 0 && x < s * c
    ensures |multiples| <= c
    decreases c
  {
    if c == 0 {
      assert forall x :: x in multiples ==> x < 0;
      assert multiples == {};
    } else {
      var top := s * (c - 1);
      var rest := multiples - {top};
      forall x | x in rest ensures x < s * (c - 1) {
        MultipleBelow(x, s, c);
      }
      FewMultiples(rest, s, c - 1);
      assert |multiples| <= |rest| + 1 by {
        if top in multiples {
          assert multiples == rest + {top};
        } else {
          assert multiples == rest;
        }
      }
    }
  }

  lemma ProductBelow(s: nat, q: nat, c: nat)
    requires s >= 1 && s * q < s * c
    ensures q < c
  {
    if q >= c {
      Product(s, q, c);
      assert false;
    }
  }

  lemma Product(s: nat, q: nat, c: nat)
    requires q >= c
    ensures s * q >= s * c
  {
    assert s * (q - c) == s * q - s * c;
  }

  lemma MultipleBelow(x: nat, s: nat, c: nat)
    requires s >= 1 && c >= 1 && x % s == 0 && x < s * c
    ensures x <= s * (c - 1)
  {
    var q := x / s;
    assert x == s * q;
    ProductBelow(s, q, c);
    Product(s, c - 1, q);
  }

  lemma {:induction false} AtMostBelow(members: set<nat>, n: nat)
    requires forall x :: x in members ==> x < n
    ensures |members| <= n
    decreases n
  {
    if n == 0 {
      assert members == {};
    } else {
      AtMostBelow(members - {n - 1}, n - 1);
      if n - 1 in members {
        assert members == members - {n - 1} + {n - 1};
      } else {
        assert members == members - {n - 1};
      }
    }
  }

  // ---------- Order of arrival ----------

  function Members(arrivals: seq<nat>): set<nat> {
    set x | x in arrivals
  }

  function Highest(arrivals: seq<nat>): nat
    requires arrivals != []
  {
    var last := arrivals[|arrivals| - 1];
    if |arrivals| == 1 then last
    else var before := Highest(arrivals[..|arrivals| - 1]); if last > before then last else before
  }

  /** How many numbers arrived after a higher one. */
  function Overtaken(arrivals: seq<nat>): nat {
    if |arrivals| <= 1 then 0
    else
      var front := arrivals[..|arrivals| - 1];
      Overtaken(front) + if arrivals[|arrivals| - 1] < Highest(front) then 1 else 0
  }

  datatype Analysis = Analysis(
    received: nat, duplicates: nat, outOfOrder: nat, samples: nat, p50: int, p95: int, p99: int, max: int)

  class Analyzer {
    const runID: Header.Word32
    const expected: nat
    const latency: bool
    const sampleEvery: nat
    const seen: array<Word64>
    var received: nat
    var duplicates: nat
    var outOfOrder: nat
    var highest: nat
    var haveHighest: bool
    var latencies: seq<int>
    ghost var arrivals: seq<nat>  // distinct accepted sequence numbers, in order of first arrival
    ghost var accepted: nat  // packets for which Observe returned true

    ghost predicate Valid()
      reads this, seen
    {
      && sampleEvery == SampleEvery(expected)
      && Holds(seen[..], expected, Members(arrivals)) && (forall x :: x in arrivals ==> x < expected)
      && received == |Members(arrivals)| == |arrivals| && received + duplicates == accepted
      && (haveHighest <==> arrivals != []) && (haveHighest ==> highest == Highest(arrivals))
      && outOfOrder == Overtaken(arrivals)
      && |latencies| <= |Sampled(Members(arrivals), sampleEvery)| && (!latency ==> latencies == [])
      && forall i :: 0 <= i < |latencies| ==> latencies[i] >= 0
    }

    constructor (runID: Header.Word32, expected: nat, latency: bool)
      ensures Valid() && arrivals == [] && accepted == 0 && fresh(seen)
      ensures this.runID == runID && this.expected == expected && this.latency == latency
    {
      this.runID, this.expected, this.latency := runID, expected, latency;
      sampleEvery := SampleEvery(expected);
      seen := new Word64[(expected + 63) / 64](_ => 0);
      received, duplicates, outOfOrder, highest, haveHighest, latencies := 0, 0, 0, 0, false, [];
      arrivals, accepted := [], 0;
      new;
      forall i: nat ensures !IsSet(0, i) {
        NothingSet(i);
      }
    }

    /** What the counters mean for a caller. */
    lemma Bounds()
      requires Valid()
      ensures received <= expected && |latencies| <= MAX_SAMPLES
    {
      AtMostBelow(Members(arrivals), expected);
      var multiples := Sampled(Members(arrivals), sampleEvery);
      FewMultiples(multiples, sampleEvery, MAX_SAMPLES);
    }

    /** Enters one sequence number that was not seen before. */
    method Enter(x: nat)
      requires Valid() && x < expected && x !in arrivals
      modifies this`arrivals, this`received, this`outOfOrder, this`highest, this`haveHighest, this`accepted, seen
      ensures Valid() && arrivals == old(arrivals) + [x] && accepted == old(accepted) + 1
    {
      hide IsSet, WithBit, Sampled, Holds, Highest, Overtaken, Members;
      ArrivalsPush(arrivals, x, sampleEvery);
      if haveHighest && x < highest {
        outOfOrder := outOfOrder + 1;
      }
      if !haveHighest || x > highest {
        highest, haveHighest := x, true;
      }
      SetSeen(x, Members(arrivals));
      received, accepted, arrivals := received + 1, accepted + 1, arrivals + [x];
    }

    method SetSeen(x: nat, ghost members: set<nat>)
      requires Holds(seen[..], expected, members) && x < expected
      modifies seen
      ensures Holds(seen[..], expected, members + {x})
    {
      HoldsAfterSet(seen[..], expected, members, x);
      ghost var before := seen[..];
      assert x / 64 < seen.Length;
      hide Holds;
      seen[x / 64] := OrBit(seen[x / 64], x % 64);
      assert seen[..] == before[x / 64 := OrBit(before[x / 64], x % 64)];
    }

    /** Takes one captured packet; true if it is one of this run's. */
    method Observe(packet: seq<Byte>, receivedAt: int) returns (ok: bool)
      requires Valid()
      modifies this, seen
      ensures Valid()
      ensures ok <==> exists i: nat :: Header.FirstHeader(packet, runID, i) && Header.StampAt(packet, i).sequence < expected
      ensures !ok ==> arrivals == old(arrivals) && accepted == old(accepted) && latencies == old(latencies)
      ensures ok ==> accepted == old(accepted) + 1
                     && exists i: nat :: Header.FirstHeader(packet, runID, i)
                          && var stamp := Header.StampAt(packet, i);
                             && arrivals == (if stamp.sequence in old(arrivals) then old(arrivals) else old(arrivals) + [stamp.sequence])
                             && latencies == old(latencies)
                                  + SampleOf(stamp.sequence !in old(arrivals), stamp.sequence, receivedAt - stamp.sentAt)
    {
      hide IsSet, WithBit, Header.StampAt, Header.Decode, Holds, Overtaken, Highest;
      var stamp := Header.DecodeHeader(packet, runID);
      if stamp.None? {
        return false;
      }
      ghost var at: nat :| Header.FirstHeader(packet, runID, at) && stamp.value == Header.StampAt(packet, at);
      assert forall i: nat :: Header.FirstHeader(packet, runID, i) ==> i == at;
      var x: nat := stamp.value.sequence;
      if x >= expected {
        return false;
      }
      ok := Mark(x, receivedAt - stamp.value.sentAt);
    }

    /** What a packet adds to the latency sample: first arrivals of every so-manieth number, if the
        clocks agree well enough for the delay not to be negative. */
    function SampleOf(first: bool, x: nat, delay: int): seq<int>
      requires sampleEvery >= 1
    {
      if first && latency && x % sampleEvery == 0 && delay >= 0 then [delay] else []
    }

    /** Counts a duplicate, or enters the number and samples its latency. */
    method Mark(x: nat, delay: int) returns (ok: bool)
      requires Valid() && x < expected
      modifies this, seen
      ensures Valid() && ok && accepted == old(accepted) + 1
      ensures arrivals == if x in old(arrivals) then old(arrivals) else old(arrivals) + [x]
      ensures latencies == old(latencies) + SampleOf(x !in old(arrivals), x, delay)
    {
      ok := true;
      SeenIff(x);
      hide IsSet, WithBit, Holds, Overtaken, Highest;
      if IsSet(seen[x / 64], x % 64) {
        duplicates, accepted := duplicates + 1, accepted + 1;
        return;
      }
      Enter(x);
      SampledPush(old(arrivals), x, sampleEvery);
      if latency && x % sampleEvery == 0 && delay >= 0 {
        latencies := latencies + [delay];
      }
    }

    /** Sorts the sample in place and reports it. */
    method Result() returns (r: Analysis)
      requires Valid()
      modifies this`latencies
      ensures Valid() && multiset(latencies) == multiset(old(latencies)) && Ascending(latencies)
      ensures r.received == received <= expected && r.duplicates == duplicates && r.outOfOrder == outOfOrder
      ensures r.samples == |old(latencies)| <= MAX_SAMPLES
      ensures r.p50 == Percentile(latencies, 50) <= r.p95 == Percentile(latencies, 95) <= r.p99
      ensures r.p99 == Percentile(latencies, 99) <= r.max == Percentile(latencies, 100)
      ensures if latencies == [] then r.p50 == r.p95 == r.p99 == r.max == 0 else r.max == latencies[|latencies| - 1]
    {
      hide Holds, Overtaken, Highest, Sampled, Percentile, Sorted;
      Bounds();
      SortedSorts(latencies);
      SameLength(Sorted(latencies), latencies);
      latencies := Sorted(latencies);
      PercentileMonotone(latencies, 50, 95);
      PercentileMonotone(latencies, 95, 99);
      PercentileMonotone(latencies, 99, 100);
      Extremes(latencies);
      r := Analysis(received, duplicates, outOfOrder, |latencies|, Percentile(latencies, 50),
                    Percentile(latencies, 95), Percentile(latencies, 99), Percentile(latencies, 100));
    }

    lemma SeenIff(x: nat)
      requires Valid() && x < expected
      ensures x / 64 < seen.Length && (IsSet(seen[x / 64], x % 64) <==> x in arrivals)
    {
      assert seen[..][x / 64] == seen[x / 64];
    }
  }

  lemma SameLength(a: seq<int>, b: seq<int>)
    requires multiset(a) == multiset(b)
    ensures |a| == |b| && ((forall i :: 0 <= i < |b| ==> b[i] >= 0) ==> forall i :: 0 <= i < |a| ==> a[i] >= 0)
  {
    assert |multiset(a)| == |multiset(b)|;
    forall i | 0 <= i < |a| ensures a[i] in b {
      assert a[i] in multiset(a);
      assert a[i] in multiset(b);
    }
  }

  lemma ArrivalsPush(arrivals: seq<nat>, x: nat, every: nat)
    requires every >= 1 && x !in arrivals
    ensures Members(arrivals + [x]) == Members(arrivals) + {x} && |Members(arrivals + [x])| == |Members(arrivals)| + 1
    ensures Highest(arrivals + [x]) == if arrivals == [] || x > Highest(arrivals) then x else Highest(arrivals)
    ensures Overtaken(arrivals + [x]) == Overtaken(arrivals) + if arrivals != [] && x < Highest(arrivals) then 1 else 0
    ensures |Sampled(Members(arrivals), every)| <= |Sampled(Members(arrivals + [x]), every)|
  {
    assert (arrivals + [x])[..|arrivals|] == arrivals;
    assert Members(arrivals + [x]) == Members(arrivals) + {x};
    SampledPush(arrivals, x, every);
  }

  lemma SampledPush(arrivals: seq<nat>, x: nat, every: nat)
    requires every >= 1 && x !in arrivals
    ensures |Sampled(Members(arrivals + [x]), every)| == |Sampled(Members(arrivals), every)| + if x % every == 0 then 1 else 0
  {
    if x % every == 0 {
      assert Sampled(Members(arrivals + [x]), every) == Sampled(Members(arrivals), every) + {x};
    } else {
      assert Sampled(Members(arrivals + [x]), every) == Sampled(Members(arrivals), every);
    }
  }

  // ---------- Percentiles ----------

  ghost predicate Ascending(values: seq<int>) {
    forall i, j :: 0 <= i < j < |values| ==> values[i] <= values[j]
  }

  /** How many of the values are at most v. */
  function AtMost(values: seq<int>, v: int): nat {
    if values == [] then 0 else AtMost(values[..|values| - 1], v) + if values[|values| - 1] <= v then 1 else 0
  }

  function Percentile(values: seq<int>, percent: nat): int {
    if values == [] then 0
    else
      values[Rank(|values|, percent) - 1]
  }

  /** The rank of a percentile among n samples, kept between the first and the last. */
  function Rank(n: nat, percent: nat): nat
    requires n > 0
    ensures 1 <= Rank(n, percent) <= n
  {
    var rank := (n * percent + 99) / 100;
    if rank < 1 then 1 else if rank > n then n else rank
  }

  lemma {:induction false} AtMostBounds(values: seq<int>, v: int, k: nat)
    requires Ascending(values) && k <= |values|
    ensures AtMost(values, v) <= |values|
    ensures (k > 0 && values[k - 1] <= v) ==> AtMost(values, v) >= k
    ensures (k < |values| && v < values[k]) ==> AtMost(values, v) <= k
    decreases |values|
  {
    if values != [] {
      var n := |values| - 1;
      AtMostBounds(values[..n], v, if k < n then k else n);
    }
  }

  /** The nearest-rank percentile: the least sample that at least `percent` of the samples do not exceed. */
  lemma NearestRank(values: seq<int>, percent: nat)
    requires Ascending(values) && values != [] && 1 <= percent <= 100
    ensures var r := Percentile(values, percent);
            && r in values
            && AtMost(values, r) * 100 >= |values| * percent
            && forall v :: v in values && v < r ==> AtMost(values, v) * 100 < |values| * percent
  {
    var rank := Rank(|values|, percent);
    RankBounds(|values|, percent);
    hide Rank;
    var r := values[rank - 1];
    AtMostBounds(values, r, rank);
    forall v | v in values && v < r ensures AtMost(values, v) <= rank - 1 {
      AtMostBounds(values, v, rank - 1);
    }
  }

  lemma RankBounds(n: nat, percent: nat)
    requires n >= 1 && 1 <= percent <= 100
    ensures (Rank(n, percent) - 1) * 100 < n * percent <= Rank(n, percent) * 100
  {
    Product(n, percent, 1);
    Product(n, 100, percent);
  }

  lemma PercentileMonotone(values: seq<int>, p: nat, q: nat)
    requires Ascending(values) && p <= q
    ensures Percentile(values, p) <= Percentile(values, q)
  {
    if values != [] {
      RankMonotone(|values|, p, q);
      hide Rank;
    }
  }

  lemma Extremes(values: seq<int>)
    ensures values == [] ==> forall percent: nat :: Percentile(values, percent) == 0
    ensures values != [] ==> Percentile(values, 100) == values[|values| - 1]
  {
  }

  lemma RankMonotone(n: nat, p: nat, q: nat)
    requires n > 0 && p <= q
    ensures Rank(n, p) <= Rank(n, q)
  {
    Product(n, q, p);
  }

  // ---------- What was sent ----------

  /** The generator's loop: on every tick it sends up to the number due by then. It numbers its packets
      from zero, and ends by itself only when it has sent as many as an analyzer of the run expects. */
  method Generate(total: nat, due: seq<nat>) returns (sent: seq<nat>, finished: bool)
    ensures |sent| <= total && forall k :: 0 <= k < |sent| ==> sent[k] == k
    ensures finished <==> |sent| == total
    ensures (exists i :: 0 <= i < |due| && due[i] >= total) ==> finished
  {
    sent := [];
    var i := 0;
    while |sent| < total && i < |due|
      invariant 0 <= i <= |due| && |sent| <= total && forall k :: 0 <= k < |sent| ==> sent[k] == k
      invariant forall k :: 0 <= k < i ==> due[k] <= |sent| || |sent| == total
      decreases |due| - i
    {
      var target := if due[i] > total then total else due[i];
      while |sent| < target
        invariant |sent| <= total && forall k :: 0 <= k < |sent| ==> sent[k] == k
        invariant forall k :: 0 <= k < i ==> due[k] <= |sent| || |sent| == total
        decreases target - |sent|
      {
        sent := sent + [|sent|];
      }
      i := i + 1;
    }
    finished := |sent| == total;
  }

  /** The latencies in ascending order. */
  function Sorted(s: seq<int>): seq<int> {
    Sorting.Sort(s, Smaller)
  }

  predicate Smaller(a: int, b: int) {
    a < b
  }

  lemma SortedSorts(s: seq<int>)
    ensures Ascending(Sorted(s)) && multiset(Sorted(s)) == multiset(s)
  {
    assert Sorting.WeakOrder(Smaller);
    Sorting.SortSorts(s, Smaller);
    forall i, j | 0 <= i < j < |Sorted(s)| ensures Sorted(s)[i] <= Sorted(s)[j] {
      assert !Smaller(Sorted(s)[j], Sorted(s)[i]);
    }
  }
}
