/** The values the workload-log recorder keeps, the order in which it deletes segments, and the
    sums and per-stream views its invariants are about. */
module LogLedger {
  import opened Totals
  import opened Options
  import Packets
  import Sorting

  /** Log streams, numbered in the order of their directories' paths. */
  type Stream = nat

  type Data = seq<Packets.Byte>

  /** A finished file: the non-empty records it holds, in order. */
  datatype Segment = Segment(stream: Stream, sequence: nat, records: seq<Data>, size: nat, finishedAt: nat)

  /** A stream's writer; `file` holds the non-empty records of the file being written, if one is open. */
  datatype Writer = Writer(sequence: nat, file: Option<seq<Data>>, size: nat, openedAt: nat)

  function Size(records: seq<Data>): nat {
    if records == [] then 0 else Size(records[..|records| - 1]) + |records[|records| - 1]|
  }

  function Appended(records: seq<Data>, data: Data): seq<Data> {
    if data == [] then records else records + [data]
  }

  lemma SizeAppended(records: seq<Data>, data: Data)
    ensures Size(Appended(records, data)) == Size(records) + |data|
  {
    if data != [] {
      assert (records + [data])[..|records|] == records;
    }
  }

  // ---------- Oldest first ----------

  predicate Before(a: Segment, b: Segment) {
    || a.finishedAt < b.finishedAt
    || (a.finishedAt == b.finishedAt && (a.stream < b.stream || (a.stream == b.stream && a.sequence < b.sequence)))
  }

  ghost predicate Sorted(s: seq<Segment>) {
    Sorting.Ordered(s, Before)
  }

  function Insert(x: Segment, s: seq<Segment>): seq<Segment> {
    Sorting.Insert(x, s, Before)
  }

  /** What prune's sort makes of the finalized segments. */
  function Sort(s: seq<Segment>): seq<Segment> {
    Sorting.Sort(s, Before)
  }

  lemma SortSorts(s: seq<Segment>)
    ensures Sorted(Sort(s)) && multiset(Sort(s)) == multiset(s) && |Sort(s)| == |s|
    ensures forall y :: y in Sort(s) <==> y in s
  {
    assert Sorting.WeakOrder(Before);
    Sorting.SortSorts(s, Before);
  }

  // ---------- One stream's records ----------

  /** The records of one stream in a list of segments, in list order. */
  function RecordsOf(s: seq<Segment>, stream: Stream): seq<Data> {
    if s == [] then []
    else RecordsOf(s[..|s| - 1], stream) + Part(s[|s| - 1], stream)
  }

  function Part(segment: Segment, stream: Stream): seq<Data> {
    if segment.stream == stream then segment.records else []
  }

  /** What is retained of a stream in finished segments, oldest first. */
  function Finished(s: seq<Segment>, stream: Stream): seq<Data> {
    RecordsOf(Sort(s), stream)
  }

  lemma {:induction false} InsertKeepsOthers(x: Segment, s: seq<Segment>, stream: Stream)
    requires x.stream != stream
    ensures RecordsOf(Insert(x, s), stream) == RecordsOf(s, stream)
    decreases |s|
  {
    if s == [] || !Before(x, s[|s| - 1]) {
      assert (s + [x])[..|s|] == s;
    } else {
      var front := Insert(x, s[..|s| - 1]);
      assert (front + [s[|s| - 1]])[..|front|] == front;
      InsertKeepsOthers(x, s[..|s| - 1], stream);
    }
  }

  lemma {:induction false} InsertComesLast(x: Segment, s: seq<Segment>)
    requires forall i :: 0 <= i < |s| && s[i].stream == x.stream ==> Before(s[i], x)
    ensures RecordsOf(Insert(x, s), x.stream) == RecordsOf(s, x.stream) + x.records
    decreases |s|
  {
    if s == [] || !Before(x, s[|s| - 1]) {
      assert (s + [x])[..|s|] == s;
    } else {
      var front := Insert(x, s[..|s| - 1]);
      assert (front + [s[|s| - 1]])[..|front|] == front;
      InsertComesLast(x, s[..|s| - 1]);
    }
  }

  /** Finishing a segment that is younger than its stream's others adds its records at the end. */
  lemma FinishedPush(s: seq<Segment>, x: Segment, stream: Stream)
    requires forall y :: y in s && y.stream == x.stream ==> Before(y, x)
    ensures Finished(s + [x], stream) == Finished(s, stream) + Part(x, stream)
  {
    assert (s + [x])[..|s|] == s;
    SortSorts(s);
    if x.stream == stream {
      forall i | 0 <= i < |Sort(s)| && Sort(s)[i].stream == x.stream ensures Before(Sort(s)[i], x) {
        assert Sort(s)[i] in Sort(s);
      }
      InsertComesLast(x, Sort(s));
    } else {
      InsertKeepsOthers(x, Sort(s), stream);
    }
  }

  lemma {:induction false} RecordsOfHead(s: seq<Segment>, stream: Stream)
    requires s != []
    ensures RecordsOf(s, stream) == Part(s[0], stream) + RecordsOf(s[1..], stream)
    decreases |s|
  {
    var n, tail := |s| - 1, s[1..];
    if n > 0 {
      RecordsOfHead(s[..n], stream);
      assert s[..n][1..] == tail[..n - 1];
      assert RecordsOf(tail, stream) == RecordsOf(tail[..n - 1], stream) + Part(s[n], stream);
      hide RecordsOf;
      Associative(Part(s[0], stream), RecordsOf(tail[..n - 1], stream), Part(s[n], stream));
    } else {
      assert s[..0] == [] && tail == [];
    }
  }

  lemma Associative<T>(a: seq<T>, b: seq<T>, c: seq<T>)
    ensures (a + b) + c == a + (b + c)
  {
  }

  /** Deleting the oldest segment takes its records off the front of its stream. */
  lemma FinishedPop(s: seq<Segment>, stream: Stream)
    requires Sorted(s) && s != []
    ensures Finished(s, stream) == Part(s[0], stream) + Finished(s[1..], stream)
  {
    Sorting.SortOfOrdered(s, Before);
    Sorting.SortOfOrdered(s[1..], Before);
    RecordsOfHead(s, stream);
  }

  // ---------- What pruning frees ----------

  /** Each of these deletions was needed when its turn came: with the segment and those deleted after it
      still there, the total would exceed the quota. */
  ghost predicate Needed(gone: seq<Segment>, total: int, quota: nat) {
    forall i :: 0 <= i < |gone| ==> total + Total(gone[i..], SizeOf) > quota
  }

  /** From the deletions `before` to those `after` the total went from `was` to `now`, and none of them
      could have been spared with `reserve` more bytes to come. */
  ghost predicate Freed(before: seq<Segment>, after: seq<Segment>, was: int, now: int, reserve: nat, quota: nat) {
    && before <= after && now + Total(after[|before|..], SizeOf) == was
    && Needed(after[|before|..], now + reserve, quota)
  }

  lemma NeededPush(gone: seq<Segment>, x: Segment, total: int, quota: nat)
    requires Needed(gone, total, quota) && total > quota
    ensures Needed(gone + [x], total - x.size, quota)
  {
    forall i | 0 <= i < |gone + [x]| ensures total - x.size + Total((gone + [x])[i..], SizeOf) > quota {
      assert (gone + [x])[i..] == gone[i..] + [x];
      TotalPush(gone[i..], x, SizeOf);
    }
  }

  lemma NeededJoin(first: seq<Segment>, second: seq<Segment>, total: int, quota: nat)
    requires Needed(second, total, quota) && Needed(first, total + Total(second, SizeOf), quota)
    ensures Needed(first + second, total, quota)
  {
    forall i | 0 <= i < |first + second| ensures total + Total((first + second)[i..], SizeOf) > quota {
      if i < |first| {
        assert (first + second)[i..] == first[i..] + second;
        TotalAppend(first[i..], second, SizeOf);
      } else {
        assert (first + second)[i..] == second[i - |first|..];
      }
    }
  }

  lemma NothingFreed(deleted: seq<Segment>, total: int, reserve: nat, quota: nat)
    ensures Freed(deleted, deleted, total, total, reserve, quota)
  {
    assert deleted[|deleted|..] == [];
  }

  lemma FreedPush(before: seq<Segment>, after: seq<Segment>, x: Segment, was: int, now: int, reserve: nat, quota: nat)
    requires Freed(before, after, was, now, reserve, quota) && now + reserve > quota
    ensures Freed(before, after + [x], was, now - x.size, reserve, quota)
  {
    var gone := after[|before|..];
    assert (after + [x])[|before|..] == gone + [x];
    TotalPush(gone, x, SizeOf);
    NeededPush(gone, x, now + reserve, quota);
  }

  /** Deletions before and after `length` more bytes were written, at least those reserved. */
  lemma FreedJoin(a: seq<Segment>, b: seq<Segment>, c: seq<Segment>, was: int, mid: int, now: int,
                  reserve: nat, length: nat, quota: nat)
    requires Freed(a, b, was, mid, reserve, quota) && Freed(b, c, mid + length, now, 0, quota) && reserve <= length
    ensures Freed(a, c, was + length, now, 0, quota)
  {
    var first, second := b[|a|..], c[|b|..];
    assert c[|a|..] == first + second;
    TotalAppend(first, second, SizeOf);
    NeededJoin(first, second, now, quota);
  }

  /** With room for everything nothing is freed. */
  lemma NothingToFree(before: seq<Segment>, after: seq<Segment>, was: int, now: int, reserve: nat, quota: nat)
    requires Freed(before, after, was, now, reserve, quota) && was + reserve <= quota
    ensures after == before && now == was
  {
    var gone := after[|before|..];
    assert gone[0..] == gone;
    assert after == before + gone;
  }

  // ---------- Why segments are finished ----------

  ghost predicate AllGone(segments: seq<Segment>, gone: seq<Segment>) {
    forall s :: s in segments ==> s in gone
  }

  /** From one list of finished segments and deletions to the next: none vanished but by deletion, and
      a new one has reached its size, left no room for `length` more bytes of its stream, or was closed
      early because no older segment was left to delete. */
  ghost predicate Moved(before: seq<Segment>, deleted: seq<Segment>, after: seq<Segment>, deleted': seq<Segment>,
                        stream: Stream, length: nat, segmentSize: nat)
  {
    && deleted <= deleted'
    && (forall s :: s in before ==> s in after || s in deleted'[|deleted|..])
    && (forall s :: s in after && s !in before ==>
          s.size >= segmentSize || (s.stream == stream && s.size + length > segmentSize) || AllGone(before, deleted'[|deleted|..]))
  }

  lemma NothingMoved(finalized: seq<Segment>, deleted: seq<Segment>, stream: Stream, length: nat, segmentSize: nat)
    ensures Moved(finalized, deleted, finalized, deleted, stream, length, segmentSize)
  {
  }

  lemma MovedJoin(a: seq<Segment>, da: seq<Segment>, b: seq<Segment>, db: seq<Segment>, c: seq<Segment>, dc: seq<Segment>,
                  stream: Stream, length: nat, segmentSize: nat)
    requires Moved(a, da, b, db, stream, length, segmentSize) && Moved(b, db, c, dc, stream, length, segmentSize)
    ensures Moved(a, da, c, dc, stream, length, segmentSize)
  {
    var first, second, both := db[|da|..], dc[|db|..], dc[|da|..];
    assert both == first + second;
    if AllGone(b, second) {
      assert AllGone(a, both);
    }
    if AllGone(a, first) {
      assert AllGone(a, both);
    }
  }

  /** Deleting a segment. */
  lemma MovedDelete(before: seq<Segment>, deleted: seq<Segment>, now: seq<Segment>, deleted': seq<Segment>, x: Segment, next: seq<Segment>,
                    stream: Stream, length: nat, segmentSize: nat)
    requires Moved(before, deleted, now, deleted', stream, length, segmentSize)
    requires x in now && multiset(next) == multiset(now) - multiset{x}
    ensures Moved(before, deleted, next, deleted' + [x], stream, length, segmentSize)
  {
    var gone, more := deleted'[|deleted|..], (deleted' + [x])[|deleted|..];
    assert more == gone + [x];
    forall s | s in now && s != x ensures s in next {
      assert s in multiset(next);
    }
    forall s | s in next ensures s in now {
      assert s in multiset(next);
      assert s in multiset(now);
    }
    if AllGone(before, gone) {
      assert AllGone(before, more);
    }
  }

  /** Closing a file early, when nothing is left to delete. */
  lemma MovedEarly(before: seq<Segment>, deleted: seq<Segment>, deleted': seq<Segment>, next: seq<Segment>,
                   stream: Stream, length: nat, segmentSize: nat)
    requires Moved(before, deleted, [], deleted', stream, length, segmentSize)
    ensures Moved(before, deleted, next, deleted', stream, length, segmentSize) && AllGone(before, deleted'[|deleted|..])
  {
  }

  /** Room for more bytes is needed no less. */
  lemma MovedLonger(a: seq<Segment>, da: seq<Segment>, b: seq<Segment>, db: seq<Segment>, stream: Stream, length: nat, segmentSize: nat)
    requires Moved(a, da, b, db, stream, 0, segmentSize)
    ensures Moved(a, da, b, db, stream, length, segmentSize)
  {
  }

  /** Finishing a file that is full or has no room for the next record. */
  lemma MovedPush(finalized: seq<Segment>, deleted: seq<Segment>, x: Segment, stream: Stream, length: nat, segmentSize: nat)
    requires x.size >= segmentSize || (x.stream == stream && x.size + length > segmentSize)
    ensures Moved(finalized, deleted, finalized + [x], deleted, stream, length, segmentSize)
  {
  }

  // ---------- Totals ----------

  function SizeOf(segment: Segment): nat {
    segment.size
  }

  /** The bytes in files being written. */
  ghost function ActiveTotal(writers: map<Stream, Writer>): nat
    decreases |writers|
  {
    if writers == map[] then 0
    else
      var k :| k in writers;
      writers[k].size + ActiveTotal(writers - {k})
  }

  lemma {:induction false} ActiveTotalSplit(writers: map<Stream, Writer>, k: Stream)
    requires k in writers
    ensures ActiveTotal(writers) == writers[k].size + ActiveTotal(writers - {k})
    decreases |writers|
  {
    var j :| j in writers && ActiveTotal(writers) == writers[j].size + ActiveTotal(writers - {j});
    if j != k {
      ActiveTotalSplit(writers - {j}, k);
      ActiveTotalSplit(writers - {k}, j);
      assert writers - {j} - {k} == writers - {k} - {j};
    }
  }

  lemma ActiveTotalUpdate(writers: map<Stream, Writer>, k: Stream, w: Writer)
    ensures ActiveTotal(writers[k := w]) ==
            ActiveTotal(writers) + w.size - if k in writers then writers[k].size else 0
  {
    ActiveTotalSplit(writers[k := w], k);
    assert writers[k := w] - {k} == writers - {k};
    if k in writers {
      ActiveTotalSplit(writers, k);
    } else {
      assert writers - {k} == writers;
    }
  }

  lemma {:induction false} NothingActive(writers: map<Stream, Writer>)
    requires forall k :: k in writers ==> writers[k].size == 0
    ensures ActiveTotal(writers) == 0
    decreases |writers|
  {
    if writers != map[] {
      var k :| k in writers && ActiveTotal(writers) == writers[k].size + ActiveTotal(writers - {k});
      NothingActive(writers - {k});
    }
  }
}
