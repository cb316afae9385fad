/** The workload-log recorder: one writer per stream, segments of bounded size, and a global quota
    kept by deleting the oldest segments. File operations succeed and the clock never runs back. */
module LogRecorders {
  import opened Totals
  import opened Options
  import opened LogLedger
  import Sorting

  ghost predicate IsSuffix(tail: seq<Data>, whole: seq<Data>) {
    |tail| <= |whole| && tail == whole[|whole| - |tail|..]
  }

  /** The records in a stream's open file. */
  function Open(writers: map<Stream, Writer>, stream: Stream): seq<Data> {
    if stream in writers && writers[stream].file.Some? then writers[stream].file.value else []
  }

  /** The streams whose open file holds something. */
  function ActiveKeys(writers: map<Stream, Writer>): set<Stream> {
    set k | k in writers && writers[k].file.Some? && writers[k].size > 0
  }

  ghost predicate WriterOk(w: Writer, segmentSize: nat) {
    && (w.file.None? ==> w.size == 0)
    && (w.file.Some? ==> w.size == Size(w.file.value) && (w.size == 0 ==> w.file.value == []))
    && (w.file.Some? && w.size > segmentSize ==> |w.file.value| == 1)
  }

  /** A segment over the limit holds a single record. */
  ghost predicate SegmentOk(s: Segment, segmentSize: nat) {
    s.size == Size(s.records) > 0 && (s.size > segmentSize ==> |s.records| == 1)
  }

  /** A stream's finished segments carry smaller numbers than the file it has open. */
  ghost predicate NumberedBelow(w: Writer, s: Segment) {
    if w.file.Some? then s.sequence < w.sequence else w.sequence > 0 ==> s.sequence <= w.sequence
  }

  /** What has been written to each stream after these records. */
  ghost function Written(history: imap<Stream, seq<Data>>, records: seq<(Stream, Data)>): imap<Stream, seq<Data>> {
    if records == [] then history
    else
      var before, last := Written(history, records[..|records| - 1]), records[|records| - 1];
      before[last.0 := Appended(if last.0 in before then before[last.0] else [], last.1)]
  }

  /** Writer j was opened before writer k, or at the same time and its key comes first. */
  predicate OpenedFirst(writers: map<Stream, Writer>, j: Stream, k: Stream)
    requires j in writers && k in writers
  {
    writers[j].openedAt < writers[k].openedAt || (writers[j].openedAt == writers[k].openedAt && j <= k)
  }

  /** The files closed since then were opened before those that still hold something. */
  ghost predicate ClosedInOrder(was: map<Stream, Writer>, now: map<Stream, Writer>) {
    forall j, k :: j in was && j in now && now[j] != was[j] && k in ActiveKeys(now) && k in was ==> OpenedFirst(was, j, k)
  }

  lemma NoneClosed(writers: map<Stream, Writer>)
    ensures ClosedInOrder(writers, writers)
  {
  }

  lemma MoreGone(before: seq<Segment>, gone: seq<Segment>, deleted: seq<Segment>, x: Segment)
    requires gone <= deleted
    ensures gone <= deleted + [x]
    ensures AllGone(before, deleted[|gone|..]) ==> AllGone(before, (deleted + [x])[|gone|..])
  {
    assert (deleted + [x])[|gone|..] == deleted[|gone|..] + [x];
  }

  /** The segment that an open file becomes when it is finished. */
  function SegmentFrom(writers: map<Stream, Writer>, k: Stream, finishedAt: nat): Segment
    requires k in writers && writers[k].file.Some?
  {
    Segment(k, writers[k].sequence, writers[k].file.value, writers[k].size, finishedAt)
  }

  /** The segments were deleted by age, and none is younger than one that is kept. */
  ghost predicate DeletedFirst(deleted: seq<Segment>, kept: seq<Segment>) {
    && (forall d, s :: d in deleted && s in kept ==> d.finishedAt <= s.finishedAt)
    && (forall i, j :: 0 <= i < j < |deleted| ==> deleted[i].finishedAt <= deleted[j].finishedAt)
  }

  /** One above the highest number a stream's segments carry. */
  ghost predicate NextNumber(finalized: seq<Segment>, k: Stream, n: nat) {
    && (forall s :: s in finalized && s.stream == k ==> s.sequence < n)
    && (n == 1 || exists s :: s in finalized && s.stream == k && s.sequence + 1 == n)
  }

  function LengthOf(record: (Stream, Data)): nat {
    |record.1|
  }

  class LogRecorder {
    const segmentSize: nat
    const maxRetained: nat
    var writers: map<Stream, Writer>
    var finalized: seq<Segment>
    var totalSize: int
    var closed: bool
    var clock: nat
    ghost var history: imap<Stream, seq<Data>>  // all that was ever written to each stream
    ghost var deleted: seq<Segment>
    ghost var inherited: set<Segment>  // found on disk at the start, perhaps written under other limits

    ghost predicate Ledger()
      reads this`totalSize, this`finalized, this`writers
    {
      totalSize == Total(finalized, SizeOf) + ActiveTotal(writers)
    }

    ghost predicate WellFormed()
      reads this`writers, this`finalized, this`clock, this`inherited
    {
      && 0 < segmentSize <= maxRetained
      && (forall k :: k in writers ==> WriterOk(writers[k], segmentSize))
      && (forall s :: s in finalized ==> s in inherited || SegmentOk(s, segmentSize))
      && (forall s :: s in finalized ==> s.finishedAt <= clock)
      && (forall s :: s in finalized && s.stream in writers ==> NumberedBelow(writers[s.stream], s))
    }

    /** Each stream's retained records are the last ones written to it. */
    ghost predicate RetainsSuffixes()
      reads this`history, this`finalized, this`writers
    {
      forall k: Stream :: k in history && IsSuffix(Finished(finalized, k) + Open(writers, k), history[k])
    }

    /** Whatever was deleted is no younger than anything that is kept. */
    ghost predicate OldestWentFirst()
      reads this`deleted, this`finalized, this`clock
    {
      DeletedFirst(deleted, finalized) && forall d :: d in deleted ==> d.finishedAt <= clock
    }

    ghost predicate Valid()
      reads this
    {
      Ledger() && WellFormed() && RetainsSuffixes() && OldestWentFirst()
    }

    /** Start over the finished segments found on disk, none of them newer than the clock. */
    constructor (segmentSize: nat, maxRetained: nat, existing: seq<Segment>, now: nat)
      requires 0 < segmentSize <= maxRetained
      requires forall s :: s in existing ==> s.finishedAt <= now
      ensures Valid() && !closed && totalSize <= maxRetained
      ensures this.segmentSize == segmentSize && this.maxRetained == maxRetained
      ensures forall k: Stream :: history[k] == Finished(existing, k)
      ensures Freed([], deleted, Total(existing, SizeOf), totalSize, 0, maxRetained)
    {
      this.segmentSize, this.maxRetained := segmentSize, maxRetained;
      writers, finalized, closed, clock, deleted := map[], existing, false, now, [];
      history := imap k: Stream :: Finished(existing, k);
      inherited := set s | s in existing;
      totalSize := 0;
      new;
      hide Finished, IsSuffix;
      StartsWhole(finalized, history);
      hide Freed;
      Begin();
    }

    /** Measures what was found, and makes it fit. */
    method Begin()
      requires WellFormed() && RetainsSuffixes() && OldestWentFirst() && totalSize == 0 && writers == map[] && deleted == []
      modifies this`writers, this`finalized, this`totalSize, this`clock, this`deleted
      ensures Valid() && totalSize <= maxRetained
      ensures Freed([], deleted, Total(old(finalized), SizeOf), totalSize, 0, maxRetained)
    {
      hide WellFormed, RetainsSuffixes, OldestWentFirst, Freed, Moved, ClosedInOrder;
      Scan();
      hide Ledger;
      Prune(0, 0);
    }

    method Scan()
      requires WellFormed() && RetainsSuffixes() && OldestWentFirst() && totalSize == 0 && writers == map[]
      modifies this`totalSize
      ensures Valid() && totalSize == Total(finalized, SizeOf)
    {
      hide WellFormed, RetainsSuffixes, OldestWentFirst;
      assert finalized[0..] == finalized;
      for i := 0 to |finalized|
        invariant totalSize + Total(finalized[i..], SizeOf) == Total(finalized, SizeOf)
      {
        assert finalized[i..][1..] == finalized[i + 1..];
        TotalHead(finalized[i..], SizeOf);
        totalSize := totalSize + finalized[i].size;
      }
    }

    /** The clock as time.Now sees it: never earlier than before. */
    method Now() returns (t: nat)
      requires Valid()
      modifies this`clock
      ensures clock == t >= old(clock) && Valid()
    {
      hide Finished, Total, ActiveTotal, Size;
      var later: nat :| later >= clock;
      clock, t := later, later;
    }

    /** Closes a stream's file; an empty one leaves no segment. */
    method Finish(k: Stream)
      requires Valid() && k in writers
      modifies this`writers, this`finalized, this`clock
      ensures Valid() && writers.Keys == old(writers.Keys)
      ensures writers[k].file.None? && forall j :: j in writers && j != k ==> writers[j] == old(writers)[j]
      ensures ActiveKeys(writers) == ActiveKeys(old(writers)) - {k}
      ensures finalized == if k in ActiveKeys(old(writers)) then old(finalized) + [SegmentFrom(old(writers), k, clock)]
                           else old(finalized)
    {
      hide Ledger, WellFormed, RetainsSuffixes, OldestWentFirst;
      if writers[k].file.None? {
        return;
      }
      var now := Now();
      if writers[k].size == 0 {
        DropEmpty(k);
      } else {
        Seal(k, now);
      }
    }

    method DropEmpty(k: Stream)
      requires Valid() && k in writers && writers[k].file.Some? && writers[k].size == 0
      modifies this`writers
      ensures Valid() && writers == old(writers)[k := old(writers)[k].(file := None)]
    {
      hide Finished, Total, ActiveTotal, Size, IsSuffix;
      ActiveTotalUpdate(writers, k, writers[k].(file := None));
      var before := writers;
      writers := writers[k := writers[k].(file := None)];
      assert forall j: Stream :: Open(writers, j) == Open(before, j);
    }

    method Seal(k: Stream, now: nat)
      requires Valid() && k in writers && writers[k].file.Some? && writers[k].size > 0 && now == clock
      modifies this`writers, this`finalized
      ensures Valid() && writers == old(writers)[k := old(writers)[k].(file := None, size := 0)]
      ensures finalized == old(finalized) + [SegmentFrom(old(writers), k, now)]
    {
      hide Finished, Total, ActiveTotal, Size, IsSuffix;
      var w := writers[k];
      var closed', segment := w.(file := None, size := 0), Segment(k, w.sequence, w.file.value, w.size, now);
      ActiveTotalUpdate(writers, k, closed');
      TotalPush(finalized, segment, SizeOf);
      assert forall y :: y in finalized && y.stream == k ==> Before(y, segment);
      SealKeepsRecords(finalized, writers, segment, closed');
      writers, finalized := writers[k := closed'], finalized + [segment];
    }

    /** Deletes the globally oldest segment, after sorting as prune does. */
    method DeleteOldest() returns (ghost x: Segment)
      requires Valid() && finalized != []
      modifies this`finalized, this`totalSize, this`deleted
      ensures Valid() && |finalized| == |old(finalized)| - 1
      ensures x in old(finalized) && deleted == old(deleted) + [x] && totalSize == old(totalSize) - x.size
      ensures multiset(finalized) == multiset(old(finalized)) - multiset{x}
      ensures forall s :: s in old(finalized) ==>
                || x.finishedAt < s.finishedAt
                || (x.finishedAt == s.finishedAt && (x.stream < s.stream || (x.stream == s.stream && x.sequence <= s.sequence)))
    {
      hide Ledger, WellFormed, RetainsSuffixes, OldestWentFirst;
      SortFinalized();
      ghost var sorted := finalized;
      var oldest := finalized[0];
      x := oldest;
      RemoveHead();
      assert forall s :: s in sorted ==> !Before(s, oldest);
      SameElements(sorted, old(finalized));
      assert sorted == [oldest] + finalized;
    }

    method SortFinalized()
      requires Valid()
      modifies this`finalized
      ensures Valid() && Sorted(finalized) && multiset(finalized) == multiset(old(finalized)) && |finalized| == |old(finalized)|
    {
      hide IsSuffix, SegmentOk, WriterOk, NumberedBelow, Total, RecordsOf, Sort;
      SortSorts(finalized);
      SortKeepsTotal(finalized);
      SortKeepsFinished(finalized);
      finalized := Sort(finalized);
    }

    method RemoveHead()
      requires Valid() && Sorted(finalized) && finalized != []
      modifies this`finalized, this`totalSize, this`deleted
      ensures Valid() && finalized == old(finalized)[1..] && deleted == old(deleted) + [old(finalized)[0]]
      ensures totalSize == old(totalSize) - old(finalized)[0].size
    {
      hide SegmentOk, WriterOk, NumberedBelow, Finished, ActiveTotal, IsSuffix, Total, Sorted;
      var oldest := finalized[0];
      PopKeepsSuffixes(finalized, writers, history);
      HeadIsOldest(finalized);
      PopDeletes(deleted, finalized);
      TotalHead(finalized, SizeOf);
      hide DeletedFirst;
      deleted := deleted + [oldest];
      finalized := finalized[1..];
      totalSize := totalSize - oldest.size;
    }

    /** The stream whose non-empty open file is the oldest. */
    method OldestActive() returns (r: Option<Stream>)
      ensures r.None? <==> ActiveKeys(writers) == {}
      ensures r.Some? ==> r.value in ActiveKeys(writers)
                          && forall k :: k in ActiveKeys(writers) ==> OpenedFirst(writers, r.value, k)
    {
      r := None;
      var pending := writers.Keys;
      while pending != {}
        invariant pending <= writers.Keys
        invariant r.None? ==> forall k :: k in ActiveKeys(writers) ==> k in pending
        invariant r.Some? ==> r.value in ActiveKeys(writers)
                              && forall k :: k in ActiveKeys(writers) && k !in pending ==> OpenedFirst(writers, r.value, k)
        decreases |pending|
      {
        var k :| k in pending;
        pending := pending - {k};
        var w := writers[k];
        if w.file.Some? && w.size > 0 {
          if r.None? || w.openedAt < writers[r.value].openedAt || (w.openedAt == writers[r.value].openedAt && k < r.value) {
            r := Some(k);
          }
        }
      }
    }

    /** Deletes oldest segments, closing open files when no segment is left, until `reserve` more
        bytes fit or nothing is retained at all, and does no more than that takes. */
    method Prune(ghost stream: Stream, reserve: nat)
      requires Valid()
      modifies this`writers, this`finalized, this`totalSize, this`clock, this`deleted
      ensures Valid() && writers.Keys == old(writers.Keys)
      ensures totalSize + reserve <= maxRetained || totalSize == 0
      ensures forall k :: k in writers && writers[k] != old(writers)[k] ==> writers[k].file.None?
      ensures Freed(old(deleted), deleted, old(totalSize), totalSize, reserve, maxRetained)
      ensures Moved(old(finalized), old(deleted), finalized, deleted, stream, reserve, segmentSize)
      ensures writers == old(writers) || AllGone(old(finalized), deleted[|old(deleted)|..])
      ensures ClosedInOrder(old(writers), writers)
      ensures old(totalSize) + reserve <= maxRetained ==>
                finalized == old(finalized) && writers == old(writers) && totalSize == old(totalSize) && deleted == old(deleted)
    {
      hide Ledger, WellFormed, RetainsSuffixes, OldestWentFirst, Freed, Moved, ClosedInOrder, AllGone;
      NothingFreed(deleted, totalSize, reserve, maxRetained);
      NothingMoved(finalized, deleted, stream, reserve, segmentSize);
      NoneClosed(writers);
      while totalSize + reserve > maxRetained
        invariant Valid() && Pruning(old(writers), old(finalized), old(deleted), old(totalSize), stream, reserve)
        invariant old(totalSize) + reserve <= maxRetained ==>
                    finalized == old(finalized) && writers == old(writers) && totalSize == old(totalSize) && deleted == old(deleted)
        decreases 2 * |ActiveKeys(writers)| + |finalized|
      {
        if finalized == [] {
          var oldest := OldestActive();
          if oldest.None? {
            EmptyIsZero();
            break;
          }
          FewerActive(ActiveKeys(writers), oldest.value);
          CloseEarly(oldest.value, old(writers), old(finalized), old(deleted), old(totalSize), stream, reserve);
        } else {
          DeleteOne(old(writers), old(finalized), old(deleted), old(totalSize), stream, reserve);
        }
      }
    }

    /** How far pruning has come since the recorder looked like this. */
    ghost predicate Pruning(was: map<Stream, Writer>, before: seq<Segment>, gone: seq<Segment>, total: int, stream: Stream, reserve: nat)
      reads this`writers, this`finalized, this`totalSize, this`deleted
    {
      && writers.Keys == was.Keys && (forall k :: k in writers && writers[k] != was[k] ==> writers[k].file.None?)
      && Freed(gone, deleted, total, totalSize, reserve, maxRetained)
      && Moved(before, gone, finalized, deleted, stream, reserve, segmentSize)
      && gone <= deleted && (writers == was || AllGone(before, deleted[|gone|..])) && ClosedInOrder(was, writers)
    }

    method DeleteOne(ghost was: map<Stream, Writer>, ghost before: seq<Segment>, ghost gone: seq<Segment>, ghost total: int,
                     ghost stream: Stream, ghost reserve: nat)
      requires Valid() && Pruning(was, before, gone, total, stream, reserve) && finalized != [] && totalSize + reserve > maxRetained
      modifies this`finalized, this`totalSize, this`deleted
      ensures Valid() && Pruning(was, before, gone, total, stream, reserve) && |finalized| < |old(finalized)|
    {
      hide Ledger, WellFormed, RetainsSuffixes, OldestWentFirst, Freed, Moved, ClosedInOrder, AllGone;
      ghost var x := DeleteOldest();
      FreedPush(gone, old(deleted), x, total, old(totalSize), reserve, maxRetained);
      MovedDelete(before, gone, old(finalized), old(deleted), x, finalized, stream, reserve, segmentSize);
      MoreGone(before, gone, old(deleted), x);
    }

    /** Closes the oldest open file, when no segment is left to delete. */
    method CloseEarly(k: Stream, ghost was: map<Stream, Writer>, ghost before: seq<Segment>, ghost gone: seq<Segment>, ghost total: int,
                      ghost stream: Stream, ghost reserve: nat)
      requires Valid() && Pruning(was, before, gone, total, stream, reserve) && finalized == [] && k in ActiveKeys(writers)
      requires forall j :: j in ActiveKeys(writers) ==> OpenedFirst(writers, k, j)
      modifies this`writers, this`finalized, this`clock
      ensures Valid() && Pruning(was, before, gone, total, stream, reserve)
      ensures ActiveKeys(writers) == ActiveKeys(old(writers)) - {k} && |finalized| == 1
    {
      hide Ledger, WellFormed, RetainsSuffixes, OldestWentFirst, Freed, Moved, AllGone;
      Finish(k);
      MovedEarly(before, gone, deleted, finalized, stream, reserve, segmentSize);
    }

    lemma FewerActive(keys: set<Stream>, k: Stream)
      requires k in keys
      ensures |keys - {k}| == |keys| - 1
    {
    }

    lemma EmptyIsZero()
      requires Valid() && finalized == [] && ActiveKeys(writers) == {}
      ensures totalSize == 0
    {
      forall k | k in writers ensures writers[k].size == 0 {
        assert WriterOk(writers[k], segmentSize);
        assert k !in ActiveKeys(writers);
      }
      NothingActive(writers);
    }

    /** Opens the stream's next file, numbered after every segment the stream still has. */
    method OpenFile(k: Stream)
      requires Valid() && k in writers && writers[k].file.None?
      modifies this`writers, this`clock
      ensures Valid() && k in writers && writers.Keys == old(writers.Keys)
      ensures writers[k].file == Some([]) && writers[k].size == 0 && writers[k].openedAt == clock
      ensures old(writers)[k].sequence > 0 ==> writers[k].sequence == old(writers)[k].sequence + 1
      ensures old(writers)[k].sequence == 0 ==> NextNumber(finalized, k, writers[k].sequence)
      ensures forall j :: j in writers && j != k ==> writers[j] == old(writers)[j]
    {
      var now := Now();
      var sequence := writers[k].sequence;
      if sequence == 0 {
        for i := 0 to |finalized|
          invariant forall j :: 0 <= j < i && finalized[j].stream == k ==> finalized[j].sequence <= sequence
          invariant sequence == 0 || exists s :: s in finalized && s.stream == k && s.sequence == sequence
        {
          if finalized[i].stream == k && finalized[i].sequence > sequence {
            sequence := finalized[i].sequence;
          }
        }
      }
      Place(k, Writer(sequence + 1, Some([]), 0, now));
    }

    method Place(k: Stream, w: Writer)
      requires Valid() && (k in writers ==> writers[k].file.None?) && w.size == 0 && (w.file.Some? ==> w.file == Some([]))
      requires forall s :: s in finalized && s.stream == k ==> NumberedBelow(w, s)
      modifies this`writers
      ensures Valid() && writers == old(writers)[k := w]
    {
      hide Finished, Total, ActiveTotal, IsSuffix, NumberedBelow;
      ActiveTotalUpdate(writers, k, w);
      assert k in writers ==> WriterOk(writers[k], segmentSize);
      var before := writers;
      writers := writers[k := w];
      assert forall j: Stream :: Open(writers, j) == Open(before, j);
    }

    /** Appends one record to the stream's open file. */
    method Append(k: Stream, data: Data)
      requires Valid() && k in writers && writers[k].file.Some?
      requires writers[k].size > 0 ==> writers[k].size + |data| <= segmentSize
      modifies this`writers, this`totalSize, this`history
      ensures Valid() && writers.Keys == old(writers.Keys) && totalSize == old(totalSize) + |data|
      ensures writers == old(writers)[k := old(writers)[k].(file := Some(Appended(old(writers)[k].file.value, data)),
                                                            size := old(writers)[k].size + |data|)]
      ensures history == old(history)[k := Appended(old(history)[k], data)]
    {
      hide Finished, Total, ActiveTotal, IsSuffix;
      var w := writers[k];
      var w' := w.(file := Some(Appended(w.file.value, data)), size := w.size + |data|);
      ActiveTotalUpdate(writers, k, w');
      AppendKeepsSuffixes(finalized, writers, history, k, w', data);
      AppendKeepsForm(w, w', data, segmentSize);
      hide Size, WriterOk, SegmentOk, NumberedBelow, DeletedFirst, Appended, Open;
      writers := writers[k := w'];
      totalSize := totalSize + |data|;
      history := history[k := Appended(history[k], data)];
    }

    /** Writes one record; false only when the recorder is closed. */
    method Write(stream: Stream, data: Data) returns (ok: bool)
      requires Valid()
      modifies this
      ensures Valid() && ok == !old(closed) && closed == old(closed)
      ensures ok ==> totalSize <= maxRetained && history == old(history)[stream := Appended(old(history)[stream], data)]
      ensures ok ==> Freed(old(deleted), deleted, old(totalSize) + |data|, totalSize, 0, maxRetained)
      ensures ok ==> Moved(old(finalized), old(deleted), finalized, deleted, stream, |data|, segmentSize)
      ensures ok ==> stream in writers && (writers[stream].file.Some? ==> writers[stream].size < segmentSize)
      ensures ok && old(totalSize) + |data| <= maxRetained ==> deleted == old(deleted) && totalSize == old(totalSize) + |data|
      ensures !ok ==> finalized == old(finalized) && writers == old(writers) && history == old(history) && deleted == old(deleted)
                      && totalSize == old(totalSize)
    {
      hide Ledger, WellFormed, RetainsSuffixes, OldestWentFirst, Freed, Moved;
      if closed {
        return false;
      }
      ok := true;
      MakeReady(stream, |data|);
      ghost var mid, midDeleted, midTotal := finalized, deleted, totalSize;
      Store(stream, data);
      FreedJoin(old(deleted), midDeleted, deleted, old(totalSize), midTotal, totalSize, |data|, |data|, maxRetained);
      MovedJoin(old(finalized), old(deleted), mid, midDeleted, finalized, deleted, stream, |data|, segmentSize);
      if old(totalSize) + |data| <= maxRetained {
        NothingToFree(old(deleted), deleted, old(totalSize) + |data|, totalSize, 0, maxRetained);
      }
    }

    /** Everything Write does before the record: rotation, pruning, and opening a file. */
    method MakeReady(stream: Stream, length: nat)
      requires Valid()
      modifies this`writers, this`finalized, this`totalSize, this`clock, this`deleted
      ensures Valid() && stream in writers && writers[stream].file.Some?
      ensures writers[stream].size > 0 ==> writers[stream].size + length <= segmentSize
      ensures totalSize + length <= maxRetained || totalSize == 0
      ensures Freed(old(deleted), deleted, old(totalSize), totalSize, length, maxRetained)
      ensures Moved(old(finalized), old(deleted), finalized, deleted, stream, length, segmentSize)
    {
      hide Ledger, WellFormed, RetainsSuffixes, OldestWentFirst, Freed, Moved, AllGone, ClosedInOrder;
      if stream !in writers {
        Place(stream, Writer(0, None, 0, 0));
      }
      RotateFor(stream, length);
      ghost var mid := finalized;
      Prune(stream, length);
      MovedJoin(old(finalized), old(deleted), mid, old(deleted), finalized, deleted, stream, length, segmentSize);
      if writers[stream].file.None? {
        OpenFile(stream);
      }
    }

    /** Finishes the stream's file if the next record has no room in it. */
    method RotateFor(stream: Stream, length: nat)
      requires Valid() && stream in writers
      modifies this`writers, this`finalized, this`clock
      ensures Valid() && writers.Keys == old(writers.Keys)
      ensures writers[stream].file.Some? && writers[stream].size > 0 ==> writers[stream].size + length <= segmentSize
      ensures Moved(old(finalized), deleted, finalized, deleted, stream, length, segmentSize)
    {
      hide Ledger, WellFormed, RetainsSuffixes, OldestWentFirst, Moved;
      NothingMoved(finalized, deleted, stream, length, segmentSize);
      var w := writers[stream];
      if w.file.Some? && w.size > 0 && w.size + length > segmentSize {
        Finish(stream);
        MovedPush(old(finalized), deleted, finalized[|old(finalized)|], stream, length, segmentSize);
      }
    }

    lemma LimitsOk()
      requires Valid()
      ensures 0 < segmentSize <= maxRetained
    {
    }

    /** The record itself, and what its size makes necessary afterwards. */
    method Store(stream: Stream, data: Data)
      requires Valid() && stream in writers && writers[stream].file.Some?
      requires writers[stream].size > 0 ==> writers[stream].size + |data| <= segmentSize
      requires totalSize + |data| <= maxRetained || totalSize == 0
      modifies this`writers, this`finalized, this`totalSize, this`clock, this`deleted, this`history
      ensures Valid() && totalSize <= maxRetained
      ensures history == old(history)[stream := Appended(old(history)[stream], data)]
      ensures Freed(old(deleted), deleted, old(totalSize) + |data|, totalSize, 0, maxRetained)
      ensures Moved(old(finalized), old(deleted), finalized, deleted, stream, |data|, segmentSize)
      ensures stream in writers && (writers[stream].file.Some? ==> writers[stream].size < segmentSize)
    {
      hide Ledger, WellFormed, RetainsSuffixes, OldestWentFirst, Freed, Moved;
      LimitsOk();
      Append(stream, data);
      NothingFreed(deleted, totalSize, 0, maxRetained);
      NothingMoved(finalized, deleted, stream, |data|, segmentSize);
      if writers[stream].size >= segmentSize {
        FinishFull(stream, |data|);
      }
    }

    method FinishFull(stream: Stream, ghost length: nat)
      requires Valid() && stream in writers && writers[stream].file.Some? && writers[stream].size >= segmentSize > 0
      modifies this`writers, this`finalized, this`totalSize, this`clock, this`deleted
      ensures Valid() && stream in writers && writers[stream].file.None? && totalSize <= maxRetained
      ensures Freed(old(deleted), deleted, old(totalSize), totalSize, 0, maxRetained)
      ensures Moved(old(finalized), old(deleted), finalized, deleted, stream, length, segmentSize)
    {
      hide Ledger, WellFormed, RetainsSuffixes, OldestWentFirst, Freed, Moved, AllGone, ClosedInOrder;
      Finish(stream);
      ghost var mid := finalized;
      MovedPush(old(finalized), deleted, mid[|old(finalized)|], stream, length, segmentSize);
      Prune(stream, 0);
      MovedLonger(mid, old(deleted), finalized, deleted, stream, length, segmentSize);
      MovedJoin(old(finalized), old(deleted), mid, old(deleted), finalized, deleted, stream, length, segmentSize);
    }

    /** A whole run of writes, of any sizes: the quota holds after each, each stream's history is what was
        written to it, and no segment was deleted without need. */
    method WriteAll(records: seq<(Stream, Data)>)
      requires Valid() && !closed && totalSize <= maxRetained
      modifies this
      ensures Valid() && !closed && totalSize <= maxRetained
      ensures history == Written(old(history), records)
      ensures Freed(old(deleted), deleted, old(totalSize) + Total(records, LengthOf), totalSize, 0, maxRetained)
    {
      hide Ledger, WellFormed, RetainsSuffixes, OldestWentFirst, Freed, Moved;
      NothingFreed(deleted, totalSize, 0, maxRetained);
      for i := 0 to |records|
        invariant Valid() && !closed && totalSize <= maxRetained && history == Written(old(history), records[..i])
        invariant Freed(old(deleted), deleted, old(totalSize) + Total(records[..i], LengthOf), totalSize, 0, maxRetained)
      {
        assert records[..i + 1][..i] == records[..i];
        InHistory(records[i].0);
        ghost var midDeleted, midTotal := deleted, totalSize;
        var ok := Write(records[i].0, records[i].1);
        FreedJoin(old(deleted), midDeleted, deleted, old(totalSize) + Total(records[..i], LengthOf), midTotal, totalSize,
                  0, |records[i].1|, maxRetained);
      }
      assert records[..|records|] == records;
    }

    lemma InHistory(k: Stream)
      requires Valid()
      ensures k in history
    {
    }

    /** Finishes every file; afterwards nothing is open and the quota holds. */
    method Close()
      requires Valid()
      modifies this
      ensures Valid() && closed && history == old(history)
      ensures !old(closed) ==> totalSize <= maxRetained && totalSize == Total(finalized, SizeOf) && ActiveKeys(writers) == {}
      ensures !old(closed) ==> Freed(old(deleted), deleted, old(totalSize), totalSize, 0, maxRetained)
      ensures old(closed) ==> finalized == old(finalized) && writers == old(writers)
    {
      if closed {
        return;
      }
      closed := true;
      FinishAll();
    }

    method FinishAll()
      requires Valid()
      modifies this`writers, this`finalized, this`totalSize, this`clock, this`deleted
      ensures Valid() && totalSize <= maxRetained && totalSize == Total(finalized, SizeOf) && ActiveKeys(writers) == {}
      ensures Freed(old(deleted), deleted, old(totalSize), totalSize, 0, maxRetained)
    {
      hide Ledger, WellFormed, RetainsSuffixes, OldestWentFirst, Freed, Moved, AllGone, ClosedInOrder;
      var pending := writers.Keys;
      while pending != {}
        invariant Valid() && pending <= writers.Keys && deleted == old(deleted) && totalSize == old(totalSize)
        invariant forall k :: k in writers && k !in pending ==> writers[k].file.None?
        decreases |pending|
      {
        var k :| k in pending;
        pending := pending - {k};
        Finish(k);
      }
      Prune(0, 0);
      AllClosed();
    }

    lemma AllClosed()
      requires Valid() && forall k :: k in writers ==> writers[k].file.None?
      ensures ActiveKeys(writers) == {} && totalSize == Total(finalized, SizeOf)
    {
      assert forall k :: k in writers ==> WriterOk(writers[k], segmentSize);
      NothingActive(writers);
    }
  }

  /** Moving a stream's records from its open file to a segment changes nothing it retains. */
  lemma SealKeepsRecords(finalized: seq<Segment>, writers: map<Stream, Writer>, segment: Segment, w: Writer)
    requires segment.stream in writers && w.file.None? && segment.records == Open(writers, segment.stream)
    requires forall y :: y in finalized && y.stream == segment.stream ==> Before(y, segment)
    ensures forall j: Stream :: Finished(finalized + [segment], j) + Open(writers[segment.stream := w], j) ==
                                Finished(finalized, j) + Open(writers, j)
  {
    hide Finished;
    forall j: Stream
      ensures Finished(finalized + [segment], j) + Open(writers[segment.stream := w], j) == Finished(finalized, j) + Open(writers, j)
    {
      FinishedPush(finalized, segment, j);
    }
  }

  lemma StartsWhole(finalized: seq<Segment>, history: imap<Stream, seq<Data>>)
    requires forall k: Stream :: k in history && history[k] == Finished(finalized, k)
    ensures forall k: Stream :: k in history && IsSuffix(Finished(finalized, k) + Open(map[], k), history[k])
  {
    hide Finished;
    forall k: Stream ensures k in history && IsSuffix(Finished(finalized, k) + Open(map[], k), history[k]) {
      assert Finished(finalized, k) + Open(map[], k) == history[k];
    }
  }

  lemma SameElements(a: seq<Segment>, b: seq<Segment>)
    requires multiset(a) == multiset(b)
    ensures |a| == |b| && forall s :: s in a <==> s in b
  {
    assert |multiset(a)| == |multiset(b)|;
    assert forall s :: s in a <==> s in multiset(a);
    assert forall s :: s in b <==> s in multiset(b);
  }

  lemma HeadIsOldest(s: seq<Segment>)
    requires Sorted(s) && s != []
    ensures s[0] in s && forall x :: x in s ==> s[0].finishedAt <= x.finishedAt
    ensures forall x :: x in s[1..] ==> x in s
  {
    forall x | x in s ensures s[0].finishedAt <= x.finishedAt {
      var i :| 0 <= i < |s| && s[i] == x;
      assert i == 0 || !Before(s[i], s[0]);
    }
  }

  lemma SortKeepsTotal(s: seq<Segment>)
    ensures Total(Sort(s), SizeOf) == Total(s, SizeOf)
  {
    TotalSort(s, Before, SizeOf);
  }

  lemma SortKeepsFinished(s: seq<Segment>)
    ensures forall k: Stream :: Finished(Sort(s), k) == Finished(s, k)
  {
    SortSorts(s);
    Sorting.SortOfOrdered(Sort(s), Before);
  }

  lemma PopDeletes(deleted: seq<Segment>, kept: seq<Segment>)
    requires DeletedFirst(deleted, kept) && Sorted(kept) && kept != []
    ensures DeletedFirst(deleted + [kept[0]], kept[1..])
  {
    HeadIsOldest(kept);
  }

  lemma PopKeepsSuffixes(finalized: seq<Segment>, writers: map<Stream, Writer>, history: imap<Stream, seq<Data>>)
    requires Sorted(finalized) && finalized != []
    requires forall k: Stream :: k in history && IsSuffix(Finished(finalized, k) + Open(writers, k), history[k])
    ensures forall k: Stream :: IsSuffix(Finished(finalized[1..], k) + Open(writers, k), history[k])
  {
    hide Finished, Sorted;
    forall k: Stream ensures IsSuffix(Finished(finalized[1..], k) + Open(writers, k), history[k]) {
      FinishedPop(finalized, k);
      var head := Part(finalized[0], k);
      assert Finished(finalized, k) + Open(writers, k) == head + (Finished(finalized[1..], k) + Open(writers, k));
      SuffixOfSuffix(head, Finished(finalized[1..], k) + Open(writers, k), history[k]);
    }
  }

  lemma SuffixOfSuffix(head: seq<Data>, tail: seq<Data>, whole: seq<Data>)
    requires IsSuffix(head + tail, whole)
    ensures IsSuffix(tail, whole)
  {
    assert tail == (head + tail)[|head|..];
  }

  lemma AppendKeepsForm(w: Writer, w': Writer, data: Data, segmentSize: nat)
    requires w.file.Some? && WriterOk(w, segmentSize) && (w.size > 0 ==> w.size + |data| <= segmentSize)
    requires w' == w.(file := Some(Appended(w.file.value, data)), size := w.size + |data|)
    ensures WriterOk(w', segmentSize) && forall s: Segment :: NumberedBelow(w, s) ==> NumberedBelow(w', s)
  {
    SizeAppended(w.file.value, data);
    hide Size;
  }

  lemma AppendKeepsSuffixes(finalized: seq<Segment>, writers: map<Stream, Writer>, history: imap<Stream, seq<Data>>,
                            k: Stream, w: Writer, data: Data)
    requires k in writers && writers[k].file.Some? && w.file == Some(Appended(writers[k].file.value, data))
    requires forall j: Stream :: j in history && IsSuffix(Finished(finalized, j) + Open(writers, j), history[j])
    ensures forall j: Stream ::
              IsSuffix(Finished(finalized, j) + Open(writers[k := w], j), history[k := Appended(history[k], data)][j])
  {
    hide Finished;
    var done, open := Finished(finalized, k), Open(writers, k);
    assert IsSuffix(done + open, history[k]);
    assert done + Appended(open, data) == Appended(done + open, data);
    assert IsSuffix(Appended(done + open, data), Appended(history[k], data));
  }
}
