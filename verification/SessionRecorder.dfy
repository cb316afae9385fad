/** The packet recorder: segments with rotation, rolling retention, truncation and a final status,
    fed by a loss-aware subscription. File operations succeed; writing a packet adds an unknown
    positive number of encoded bytes, or fails. */
module SessionRecorders {
  import opened Totals
  import opened Options
  import opened Packets
  import StreamModel
  import opened StreamDelivery

  datatype Limits = Limits(segmentSize: nat, maxSessionSize: nat)

  datatype Segment = Segment(sequence: nat, size: nat, packetCount: nat, capturedBytes: nat, contents: seq<Labelled>)

  /** The segment being written. */
  datatype File = File(bytes: nat, contents: seq<Labelled>)

  datatype Status = Completed | Partial | Truncated | Failed

  datatype Encoding = Encoded(bytes: nat) | WriteFails

  datatype Outcome = Written | LimitReached | Error

  /** What Start checks before it creates a recorder. */
  predicate Startable(limits: Limits, rolling: bool) {
    rolling ==> 0 < limits.segmentSize <= limits.maxSessionSize
  }

  // ---------- Totals ----------

  function SizeOf(segment: Segment): nat {
    segment.size
  }

  function CountOf(segments: seq<Segment>): nat {
    if segments == [] then 0 else CountOf(segments[..|segments| - 1]) + segments[|segments| - 1].packetCount
  }

  function ContentsOf(segments: seq<Segment>): seq<Labelled> {
    if segments == [] then [] else ContentsOf(segments[..|segments| - 1]) + segments[|segments| - 1].contents
  }

  function Captured(labels: seq<Labelled>): nat {
    if labels == [] then 0 else Captured(labels[..|labels| - 1]) + labels[|labels| - 1].packet.capturedLength
  }

  /** The size of all but the k oldest segments. */
  function TotalFrom(segments: seq<Segment>, k: nat): nat
    requires k <= |segments|
  {
    Total(segments[k..], SizeOf)
  }

  lemma TotalFromStep(segments: seq<Segment>, k: nat)
    requires k < |segments|
    ensures TotalFrom(segments, k) == segments[k].size + TotalFrom(segments, k + 1)
    ensures segments[k..] != [] && segments[k..][0] == segments[k] && segments[k..][1..] == segments[k + 1..]
  {
    assert segments[k..][1..] == segments[k + 1..];
    TotalHead(segments[k..], SizeOf);
  }

  ghost predicate Counted(segment: Segment) {
    segment.packetCount == |segment.contents| > 0 && segment.capturedBytes == Captured(segment.contents)
  }

  lemma {:induction false} CountIsContents(segments: seq<Segment>)
    requires forall k :: 0 <= k < |segments| ==> Counted(segments[k])
    ensures CountOf(segments) == |ContentsOf(segments)|
    decreases |segments|
  {
    if segments != [] {
      CountIsContents(segments[..|segments| - 1]);
    }
  }

  lemma ContentsPush(segments: seq<Segment>, segment: Segment)
    ensures ContentsOf(segments + [segment]) == ContentsOf(segments) + segment.contents
  {
    assert (segments + [segment])[..|segments|] == segments;
  }

  /** The segments listed are a suffix of all there ever were. */
  ghost predicate Suffix(segments: seq<Segment>, all: seq<Segment>, pruned: nat) {
    pruned <= |all| && segments == all[pruned..]
  }

  lemma SuffixCut(segments: seq<Segment>, all: seq<Segment>, pruned: nat, cut: nat)
    requires Suffix(segments, all, pruned) && cut <= |segments|
    ensures Suffix(segments[cut..], all, pruned + cut)
  {
  }

  lemma NothingPruned(segments: seq<Segment>)
    ensures Suffix(segments, segments + [], 0)
  {
  }

  lemma SuffixPush(segments: seq<Segment>, all: seq<Segment>, pruned: nat, segment: Segment)
    requires Suffix(segments, all, pruned)
    ensures Suffix(segments + [segment], all + [segment], pruned)
  {
  }

  lemma TotalFromAll(segments: seq<Segment>)
    ensures TotalFrom(segments, 0) == Total(segments, SizeOf)
  {
    assert segments[0..] == segments;
  }

  lemma TotalFromIs(segments: seq<Segment>, k: nat)
    requires k <= |segments|
    ensures TotalFrom(segments, k) == Total(segments[k..], SizeOf)
  {
  }

  /** `cut` is the shortest prefix whose removal makes room. */
  ghost predicate ShortestCut(segments: seq<Segment>, cut: nat, room: int)
    requires cut <= |segments|
  {
    && (TotalFrom(segments, cut) <= room || cut == |segments|)
    && NoneSpare(segments, cut, room)
  }

  /** No shorter prefix would do. */
  ghost predicate NoneSpare(segments: seq<Segment>, cut: nat, room: int)
    requires cut <= |segments|
  {
    forall k :: 0 <= k < cut ==> TotalFrom(segments, k) > room
  }

  lemma NoneSpareStep(segments: seq<Segment>, cut: nat, room: int)
    requires cut < |segments| && NoneSpare(segments, cut, room) && TotalFrom(segments, cut) > room
    ensures NoneSpare(segments, cut + 1, room)
  {
  }

  /** Once the list is cut, what is left fits. */
  lemma RoomMade(segments: seq<Segment>, cut: nat, room: int)
    requires cut <= |segments| && ShortestCut(segments, cut, room) && room >= 0
    ensures Total(segments[cut..], SizeOf) <= room
  {
  }

  lemma CapturedPush(labels: seq<Labelled>, entry: Labelled)
    ensures Captured(labels + [entry]) == Captured(labels) + entry.packet.capturedLength
  {
    assert (labels + [entry])[..|labels|] == labels;
  }

  /** Nothing was pruned without need: with the last pruned segment still there, there would be no room. */
  ghost predicate Thrifty(all: seq<Segment>, pruned: nat, room: int) {
    pruned > 0 ==> pruned <= |all| && Total(all[pruned - 1..], SizeOf) > room
  }

  lemma ThriftyCut(segments: seq<Segment>, all: seq<Segment>, pruned: nat, cut: nat, room: int)
    requires Suffix(segments, all, pruned) && Thrifty(all, pruned, room) && cut <= |segments| && NoneSpare(segments, cut, room)
    ensures Thrifty(all, pruned + cut, room)
  {
    if cut > 0 {
      assert TotalFrom(segments, cut - 1) > room;
      assert segments[cut - 1..] == all[pruned + cut - 1..];
    }
  }

  lemma ThriftyPush(all: seq<Segment>, pruned: nat, segment: Segment, room: int)
    requires Thrifty(all, pruned, room)
    ensures Thrifty(all + [segment], pruned, room)
  {
    if pruned > 0 {
      assert (all + [segment])[pruned - 1..] == all[pruned - 1..] + [segment];
      TotalPush(all[pruned - 1..], segment, SizeOf);
    }
  }

  lemma MoreRoom(segments: seq<Segment>, cut: nat, room: int, less: int)
    requires cut <= |segments| && NoneSpare(segments, cut, room) && less <= room
    ensures NoneSpare(segments, cut, less)
  {
  }

  /** Each of these segments had reached its size when it was finished. */
  ghost predicate AllFull(segments: seq<Segment>, size: nat) {
    (segments != [] ==> size > 0) && forall k :: 0 <= k < |segments| ==> size <= segments[k].size
  }

  lemma FullPrefix(some: seq<Segment>, all: seq<Segment>, size: nat)
    requires some <= all && AllFull(all, size)
    ensures AllFull(some, size)
  {
    forall k | 0 <= k < |some| ensures size <= some[k].size {
      assert some[k] == all[k];
    }
  }

  /** The highest number in use, or zero. */
  ghost predicate Highest(numbers: seq<nat>, n: nat) {
    (forall m :: m in numbers ==> m <= n) && (n == 0 || n in numbers)
  }

  // ---------- What the event loop may see ----------

  /** One turn of the select loop. `QueueEnded` also says whether the recorder's context was already
      cancelled when the closed queue was noticed. */
  datatype Choice =
    | GotBatch(encoded: seq<Encoding>)
    | QueueEnded(cancelled: bool)
    | DropSeen
    | FlushTick
    | SyncTick
    | ContextDone

  /** What Go's channels allow, given how the queue finally looks: batches arrive in the order sent,
      the end shows once the closed queue is empty, the drop signal only after an overflow, and the
      queue is only ever removed because the context was cancelled. */
  ghost predicate Possible(ch: StreamModel.Channel, taken: nat, choice: Choice) {
    match choice
    case GotBatch(encoded) =>
      && taken < |ch.sent| && |encoded| == |ch.sent[taken].packets|
      && forall i :: 0 <= i < |encoded| && encoded[i].Encoded? ==> encoded[i].bytes > 0
    case QueueEnded(cancelled) =>
      ch.ending.Some? && taken == |ch.sent| && (ch.ending.value.cause.Removed? ==> cancelled)
    case DropSeen => DidOverflow(ch)
    case _ => true
  }

  function BatchesIn(choices: seq<Choice>): nat {
    if choices == [] then 0 else BatchesIn(choices[..|choices| - 1]) + if choices[|choices| - 1].GotBatch? then 1 else 0
  }

  ghost predicate Consistent(ch: StreamModel.Channel, choices: seq<Choice>) {
    forall i :: 0 <= i < |choices| ==> Possible(ch, BatchesIn(choices[..i]), choices[i])
  }

  ghost predicate WasCancelled(choices: seq<Choice>) {
    exists i :: 0 <= i < |choices| && (choices[i] == ContextDone || choices[i] == QueueEnded(true))
  }

  ghost predicate SomeWriteFails(choices: seq<Choice>) {
    exists i :: 0 <= i < |choices| && choices[i].GotBatch? && WriteFails in choices[i].encoded
  }

  ghost predicate NoneEnds(choices: seq<Choice>) {
    forall i :: 0 <= i < |choices| ==> !choices[i].QueueEnded? && choices[i] != ContextDone
  }

  class SessionRecorder {
    const limits: Limits
    const rolling: bool
    var segments: seq<Segment>
    var totalFileSize: int
    var packetCount: nat
    var capturedBytes: nat
    var sequence: nat
    var file: Option<File>
    var segmentPackets: nat
    var segmentBytes: nat
    var retainedSize: int
    var segmentCount: int
    var status: Option<Status>
    ghost var existing: seq<Segment>
    ghost var finished: seq<Segment>
    ghost var pruned: nat
    ghost var written: seq<Labelled>
    ghost var lastEncoded: nat

    /** The cached totals agree with the segment list, which lost only its oldest segments. */
    ghost predicate Ledger()
      reads this`segments, this`totalFileSize, this`retainedSize, this`segmentCount, this`existing, this`finished, this`pruned
    {
      && totalFileSize == Total(segments, SizeOf) && retainedSize == totalFileSize && segmentCount == |segments|
      && Suffix(segments, existing + finished, pruned) && (!rolling ==> pruned == 0)
      && Thrifty(existing + finished, pruned, limits.maxSessionSize - limits.segmentSize)
    }

    /** Every written packet is in exactly one segment of this run, in order. */
    ghost predicate Logged()
      reads this`written, this`finished, this`file, this`packetCount, this`capturedBytes, this`segmentPackets, this`segmentBytes
    {
      && written == ContentsOf(finished) + (if file.Some? then file.value.contents else [])
      && packetCount == |written| && capturedBytes == Captured(written)
      && (forall k :: 0 <= k < |finished| ==> Counted(finished[k]))
      && (file.Some? ==>
            && segmentPackets == |file.value.contents| && segmentBytes == Captured(file.value.contents)
            && (segmentPackets == 0 <==> file.value.bytes == 0))
    }

    /** A segment opens only where it fits, is finished only once it has reached its size, and outgrows
        that by less than one packet. */
    ghost predicate Sized()
      reads this
    {
      && Startable(limits, rolling) && AllFull(finished, limits.segmentSize)
      && (file.Some? ==>
            && (rolling ==> totalFileSize + limits.segmentSize <= limits.maxSessionSize)
            && (limits.segmentSize > 0 && file.value.bytes > 0 ==> file.value.bytes < limits.segmentSize + lastEncoded))
    }

    ghost predicate Valid()
      reads this
    {
      Ledger() && Logged() && Sized()
    }

    /** Between two packets the active segment is below its limit, and a normal recording below its own. */
    ghost predicate Below()
      reads this
    {
      && file.Some? && (limits.segmentSize > 0 ==> file.value.bytes < limits.segmentSize)
      && UnderSessionLimit()
    }

    ghost predicate UnderSessionLimit()
      reads this
    {
      !rolling && limits.maxSessionSize > 0 && written != [] && file.Some? ==>
        totalFileSize + file.value.bytes < limits.maxSessionSize
    }

    predicate ReachedSegmentLimit()
      reads this
    {
      limits.segmentSize > 0 && file.Some? && file.value.bytes >= limits.segmentSize
    }

    predicate ReachedSessionLimit()
      reads this
    {
      limits.maxSessionSize > 0 && file.Some? && totalFileSize + file.value.bytes >= limits.maxSessionSize
    }

    /** A rolling recording never outgrows its quota by a whole packet more than the last one written. */
    lemma DiskUseBounded()
      requires Valid() && rolling && file.Some?
      ensures totalFileSize + file.value.bytes < limits.maxSessionSize + if file.value.bytes > 0 then lastEncoded else 1
    {
    }

    /** Start with the finished segments found in the directory, oldest first; `numbers` are those in the
        names of the files this run left there before. */
    constructor (limits: Limits, rolling: bool, existing: seq<Segment>, numbers: seq<nat>)
      requires rolling ==> 0 < limits.segmentSize <= limits.maxSessionSize
      ensures Valid() && Below() && status.None? && written == [] && finished == []
      ensures this.limits == limits && this.rolling == rolling && this.existing == existing
      ensures sequence >= 1 && Highest(numbers, sequence - 1)
    {
      this.limits, this.rolling, this.existing := limits, rolling, existing;
      segments, finished, pruned, written, lastEncoded := existing, [], 0, [], 0;
      packetCount, capturedBytes, sequence, segmentPackets, segmentBytes := 0, 0, 0, 0, 0;
      file, status := None, None;
      segmentCount := |existing|;
      totalFileSize, retainedSize := 0, 0;
      new;
      NothingWritten();
      hide Total, Suffix;
      Load(numbers);
      hide Ledger, Logged, Highest;
      OpenFirst();
    }

    /** Takes over what the directory holds. */
    method Load(numbers: seq<nat>)
      requires segments == existing && finished == [] && pruned == 0 && segmentCount == |segments|
      requires totalFileSize == 0 && sequence == 0
      modifies this`totalFileSize, this`retainedSize, this`sequence
      ensures Ledger() && Highest(numbers, sequence)
    {
      LoadTotals();
      hide Ledger;
      LoadNumber(numbers);
    }

    /** Makes room and opens the first segment. */
    method OpenFirst()
      requires Ledger() && Logged() && file.None? && Startable(limits, rolling) && written == [] && finished == []
      modifies this`segments, this`totalFileSize, this`retainedSize, this`segmentCount, this`pruned
      modifies this`sequence, this`file, this`segmentPackets, this`segmentBytes
      ensures Valid() && Below() && sequence == old(sequence) + 1
    {
      hide Ledger, Logged, Sized, Below;
      MakeRoom();
      OpenSegment();
    }

    lemma NothingWritten()
      ensures ContentsOf([]) == [] && Captured([]) == 0
    {
    }

    /** Numbering resumes after the highest number in use. */
    method LoadNumber(numbers: seq<nat>)
      requires sequence == 0
      modifies this`sequence
      ensures Highest(numbers, sequence)
    {
      for i := 0 to |numbers|
        invariant forall k :: 0 <= k < i ==> numbers[k] <= sequence
        invariant sequence == 0 || sequence in numbers
      {
        if numbers[i] > sequence {
          sequence := numbers[i];
        }
      }
    }

    method LoadTotals()
      requires segments == existing && finished == [] && pruned == 0 && segmentCount == |segments| && totalFileSize == 0
      modifies this`totalFileSize, this`retainedSize
      ensures Ledger()
    {
      NothingPruned(segments);
      assert segments[0..] == segments;
      for i := 0 to |segments|
        invariant totalFileSize + Total(segments[i..], SizeOf) == Total(segments, SizeOf)
      {
        assert segments[i..][1..] == segments[i + 1..];
        TotalHead(segments[i..], SizeOf);
        totalFileSize := totalFileSize + segments[i].size;
      }
      retainedSize := totalFileSize;
    }

    method OpenSegment()
      requires Ledger() && Logged() && file.None? && Startable(limits, rolling) && AllFull(finished, limits.segmentSize)
      requires rolling ==> totalFileSize + limits.segmentSize <= limits.maxSessionSize
      requires !rolling && limits.maxSessionSize > 0 && written != [] ==> totalFileSize < limits.maxSessionSize
      modifies this`sequence, this`file, this`segmentPackets, this`segmentBytes
      ensures Valid() && Below() && sequence == old(sequence) + 1
    {
      hide Suffix, Total, ContentsOf;
      sequence := sequence + 1;
      file := Some(File(0, []));
      segmentPackets, segmentBytes := 0, 0;
    }

    /** Deletes the oldest segments until `reserve` more bytes fit. */
    method PruneOldest(reserve: nat)
      requires Ledger() && reserve <= limits.segmentSize
      modifies this`segments, this`totalFileSize, this`retainedSize, this`segmentCount, this`pruned
      ensures Ledger()
      ensures if !rolling || limits.maxSessionSize == 0 then segments == old(segments) && pruned == old(pruned)
              else var cut := pruned - old(pruned);
                   0 <= cut <= |old(segments)| && segments == old(segments)[cut..]
                   && ShortestCut(old(segments), cut, limits.maxSessionSize - reserve)
    {
      hide Suffix, Total, TotalFrom, ShortestCut, Thrifty;
      if !rolling || limits.maxSessionSize == 0 {
        return;
      }
      ghost var all := existing + finished;
      ghost var cut := CutOldest(reserve);
      AfterCut(old(segments), all, pruned, cut, reserve);
      retainedSize, segmentCount, pruned := totalFileSize, |segments|, pruned + cut;
    }

    lemma AfterCut(before: seq<Segment>, all: seq<Segment>, gone: nat, cut: nat, reserve: nat)
      requires cut <= |before| && ShortestCut(before, cut, limits.maxSessionSize - reserve) && reserve <= limits.segmentSize
      requires Suffix(before, all, gone) && Thrifty(all, gone, limits.maxSessionSize - limits.segmentSize)
      ensures TotalFrom(before, cut) == Total(before[cut..], SizeOf) && Suffix(before[cut..], all, gone + cut)
      ensures Thrifty(all, gone + cut, limits.maxSessionSize - limits.segmentSize)
    {
      TotalFromIs(before, cut);
      SuffixCut(before, all, gone, cut);
      hide Total;
      MoreRoom(before, cut, limits.maxSessionSize - reserve, limits.maxSessionSize - limits.segmentSize);
      ThriftyCut(before, all, gone, cut, limits.maxSessionSize - limits.segmentSize);
    }

    /** The loop that removes the oldest segments. */
    method CutOldest(reserve: nat) returns (ghost cut: nat)
      requires totalFileSize == Total(segments, SizeOf)
      modifies this`segments, this`totalFileSize
      ensures cut <= |old(segments)| && segments == old(segments)[cut..] && totalFileSize == TotalFrom(old(segments), cut)
      ensures ShortestCut(old(segments), cut, limits.maxSessionSize - reserve)
    {
      ghost var room := limits.maxSessionSize - reserve;
      cut := 0;
      assert NoneSpare(segments, 0, room) && segments[0..] == segments;
      hide Total, TotalFrom, NoneSpare;
      assert totalFileSize == TotalFrom(segments, 0) by {
        TotalFromAll(segments);
      }
      while totalFileSize + reserve > limits.maxSessionSize && segments != []
        invariant 0 <= cut <= |old(segments)|
        invariant segments == old(segments)[cut..] && totalFileSize == TotalFrom(old(segments), cut)
        invariant NoneSpare(old(segments), cut, room)
        decreases |segments|
      {
        TotalFromStep(old(segments), cut);
        NoneSpareStep(old(segments), cut, room);
        totalFileSize := totalFileSize - segments[0].size;
        segments := segments[1..];
        cut := cut + 1;
      }
    }

    /** Closes the active segment; an empty one leaves no trace. */
    method FinishSegment()
      requires Ledger() && Logged()
      modifies this`segments, this`totalFileSize, this`retainedSize, this`segmentCount, this`file, this`finished
      ensures Ledger() && Logged() && file.None? && written == old(written)
      ensures totalFileSize == old(totalFileSize) + old(if file.Some? then file.value.bytes else 0)
      ensures finished == if old(file.Some? && segmentPackets > 0)
                          then old(finished) + [Segment(sequence, old(file).value.bytes, segmentPackets, segmentBytes,
                                                        old(file).value.contents)]
                          else old(finished)
      ensures segments == old(segments) + finished[|old(finished)|..]
    {
      hide Suffix, Total, ContentsOf, Captured;
      if file.None? {
        return;
      }
      if segmentPackets == 0 {
        file := None;
        return;
      }
      AppendSegment(Segment(sequence, file.value.bytes, segmentPackets, segmentBytes, file.value.contents));
    }

    method AppendSegment(segment: Segment)
      requires Ledger() && Logged() && file.Some? && segment.contents == file.value.contents
      requires segment.packetCount == segmentPackets > 0 && segment.capturedBytes == segmentBytes
      modifies this`segments, this`totalFileSize, this`retainedSize, this`segmentCount, this`file, this`finished
      ensures Ledger() && Logged() && file.None? && finished == old(finished) + [segment] && segments == old(segments) + [segment]
      ensures totalFileSize == old(totalFileSize) + segment.size
    {
      hide Suffix, Total, ContentsOf, Captured;
      TotalPush(segments, segment, SizeOf);
      SuffixPush(segments, existing + finished, pruned, segment);
      ThriftyPush(existing + finished, pruned, segment, limits.maxSessionSize - limits.segmentSize);
      hide Thrifty;
      assert existing + finished + [segment] == existing + (finished + [segment]);
      ContentsPush(finished, segment);
      totalFileSize := totalFileSize + segment.size;
      segments, finished := segments + [segment], finished + [segment];
      retainedSize, segmentCount := totalFileSize, |segments|;
      file := None;
    }

    /** A new segment opens only after pruning has made room for it. */
    method Rotate()
      requires Valid() && file.Some? && status.None? && UnderSessionLimit() && 0 < limits.segmentSize <= file.value.bytes
      modifies this`segments, this`totalFileSize, this`retainedSize, this`segmentCount, this`pruned, this`finished
      modifies this`sequence, this`file, this`segmentPackets, this`segmentBytes
      ensures Valid() && Below() && written == old(written)
      ensures finished == old(finished) + [Segment(old(sequence), old(file).value.bytes, old(segmentPackets),
                                                   old(segmentBytes), old(file).value.contents)]
    {
      hide Suffix, Total, ContentsOf, Captured, ShortestCut;
      FinishSegment();
      MakeRoom();
      OpenSegment();
    }

    method MakeRoom()
      requires Ledger() && Startable(limits, rolling)
      modifies this`segments, this`totalFileSize, this`retainedSize, this`segmentCount, this`pruned
      ensures Ledger() && (rolling ==> totalFileSize + limits.segmentSize <= limits.maxSessionSize)
      ensures !rolling ==> totalFileSize == old(totalFileSize)
    {
      if rolling {
        PruneOldest(limits.segmentSize);
        RoomMade(old(segments), pruned - old(pruned), limits.maxSessionSize - limits.segmentSize);
      }
    }

    /** Adds one packet to the active segment. */
    method WritePacket(template: Template, packet: Packet, encoded: nat)
      requires Valid() && Below() && encoded > 0
      modifies this`file, this`segmentPackets, this`segmentBytes, this`packetCount, this`capturedBytes, this`written, this`lastEncoded
      ensures Valid() && file.Some? && written == old(written) + [Labelled(template, packet)] && lastEncoded == encoded
      ensures file.value.bytes == old(file.value.bytes) + encoded
    {
      hide Suffix, Total, ContentsOf, Captured;
      var entry := Labelled(template, packet);
      CapturedPush(written, entry);
      CapturedPush(file.value.contents, entry);
      file := Some(File(file.value.bytes + encoded, file.value.contents + [entry]));
      segmentPackets, packetCount := segmentPackets + 1, packetCount + 1;
      segmentBytes, capturedBytes := segmentBytes + packet.capturedLength, capturedBytes + packet.capturedLength;
      written, lastEncoded := written + [entry], encoded;
      assert written == ContentsOf(finished) + file.value.contents;
    }

    /** Writes a batch packet by packet, rotating in between, until it is done, the session limit
        is reached, or a packet cannot be encoded. */
    method WriteBatch(batch: Batch, encoded: seq<Encoding>) returns (outcome: Outcome)
      requires Valid() && Below() && status.None? && |encoded| == |batch.packets|
      requires forall i :: 0 <= i < |encoded| && encoded[i].Encoded? ==> encoded[i].bytes > 0
      modifies this
      ensures Valid() && file.Some? && status.None? && existing == old(existing)
      ensures outcome.Written? ==> written == old(written) + LabelsOf(batch) && UnderSessionLimit()
      ensures batch.packets == [] ==> totalFileSize == old(totalFileSize) && file == old(file)
      ensures outcome.LimitReached? ==>
                && !rolling && 0 < limits.maxSessionSize <= totalFileSize + file.value.bytes
                && old(written) < written <= old(written) + LabelsOf(batch)
                && (|written| > 1 ==> totalFileSize + file.value.bytes - lastEncoded < limits.maxSessionSize)
      ensures outcome.Error? ==>
                exists k :: 0 <= k < |encoded| && encoded[k].WriteFails? && written == old(written) + LabelsOf(batch)[..k]
    {
      hide Ledger, Logged, Sized, LabelsOf;
      outcome := Written;
      ghost var labels := LabelsOf(batch);
      for i := 0 to |batch.packets|
        invariant Valid() && file.Some? && status.None? && existing == old(existing)
        invariant UnderSessionLimit() && (i < |batch.packets| ==> Below())
        invariant written == old(written) + labels[..i]
        invariant i == 0 ==> totalFileSize == old(totalFileSize) && file == old(file)
      {
        if encoded[i].WriteFails? {
          return Error;
        }
        WritePacket(batch.template, batch.packets[i], encoded[i].bytes);
        assert labels[..i + 1] == labels[..i] + [labels[i]];
        if !rolling && ReachedSessionLimit() {
          return LimitReached;
        }
        if i < |batch.packets| - 1 && ReachedSegmentLimit() {
          Rotate();
        }
      }
    }

    /** The run is over: the last segment is closed and the quota restored. */
    method Complete(final: Status)
      requires Valid() && status.None?
      modifies this
      ensures Ledger() && Logged() && file.None? && status == Some(final) && written == old(written)
      ensures existing == old(existing) && (rolling ==> totalFileSize <= limits.maxSessionSize)
      ensures !rolling ==> totalFileSize == old(totalFileSize) + old(if file.Some? then file.value.bytes else 0)
      ensures finished != [] ==> AllFull(finished[..|finished| - 1], limits.segmentSize)
      ensures |old(finished)| <= |finished| && old(pruned) <= pruned
      ensures var list, cut := old(segments) + finished[|old(finished)|..], pruned - old(pruned);
              && cut <= |list| && segments == list[cut..]
              && (if rolling then ShortestCut(list, cut, limits.maxSessionSize) else cut == 0)
    {
      hide Suffix, Total, ContentsOf, Captured, ShortestCut, Logged, Ledger;
      FinishSegment();
      Trim();
      if finished != [] {
        FullPrefix(finished[..|finished| - 1], old(finished), limits.segmentSize);
      }
      status := Some(final);
    }

    /** Restores the quota of a rolling recording. */
    method Trim()
      requires Ledger() && Startable(limits, rolling)
      modifies this`segments, this`totalFileSize, this`retainedSize, this`segmentCount, this`pruned
      ensures Ledger() && (rolling ==> totalFileSize <= limits.maxSessionSize)
      ensures var cut := pruned - old(pruned);
              && 0 <= cut <= |old(segments)| && segments == old(segments)[cut..]
              && (if rolling then ShortestCut(old(segments), cut, limits.maxSessionSize) else cut == 0)
      ensures !rolling ==> totalFileSize == old(totalFileSize)
    {
      hide Suffix, Total, ShortestCut;
      if rolling {
        PruneOldest(0);
        RoomMade(old(segments), pruned - old(pruned), limits.maxSessionSize);
      }
    }

    /** The queue has ended: lossless unless it was cancelled or overflowed. */
    method HandleEnd(ch: StreamModel.Channel, cancelled: bool, dropped: bool)
      requires Valid() && status.None? && ch.ending.Some?
      requires ch.ending.value.cause.Removed? ==> cancelled
      requires dropped ==> DidOverflow(ch)
      modifies this
      ensures Ended(old(existing)) && written == old(written)
      ensures status == if !cancelled && ch.ending.value.cause.PipelineClosed? then Some(Completed) else Some(Partial)
    {
      hide Ledger, Logged, Sized;
      if cancelled {
        Complete(Partial);
        return;
      }
      var lost := dropped;
      if !lost && DidOverflow(ch) {  // the drop channel is closed before the queue is
        lost := true;
      }
      Complete(if lost then Partial else Completed);
    }

    /** After the run: the log is complete, nothing is open, a rolling recording is within its quota, a
        truncated one has reached it, and only the last segment may be short. */
    ghost predicate Ended(existing: seq<Segment>)
      reads this
    {
      && Ledger() && Logged() && file.None? && status.Some? && this.existing == existing
      && (rolling ==> totalFileSize <= limits.maxSessionSize)
      && (status == Some(Truncated) ==> !rolling && 0 < limits.maxSessionSize <= totalFileSize)
      && (finished != [] ==> AllFull(finished[..|finished| - 1], limits.segmentSize))
    }

    method HandleBatch(batch: Batch, encoded: seq<Encoding>)
      requires Valid() && Below() && status.None? && |encoded| == |batch.packets|
      requires forall i :: 0 <= i < |encoded| && encoded[i].Encoded? ==> encoded[i].bytes > 0
      modifies this
      ensures status.None? ==> Valid() && Below() && written == old(written) + LabelsOf(batch)
      ensures status.None? && batch.packets == [] ==> totalFileSize == old(totalFileSize) && file == old(file)
      ensures status.Some? ==> Ended(old(existing)) && old(written) <= written
      ensures status.Some? ==> status == Some(Failed) || (status == Some(Truncated) && !rolling)
      ensures status == Some(Failed) ==> WriteFails in encoded
      ensures existing == old(existing)
    {
      hide Ledger, Logged, Sized;
      var outcome := WriteBatch(batch, encoded);
      if outcome.Error? {
        Complete(Failed);
      } else if outcome.LimitReached? {
        Complete(Truncated);
      } else if ReachedSegmentLimit() {
        Rotate();
      }
    }

    /** Flushing changes no count; between batches the segment limit is never the one that is met. */
    method HandleFlush()
      requires Valid() && file.Some? && status.None?
      modifies this
      ensures existing == old(existing) && written == old(written)
      ensures status.None? ==> Valid() && Below()
      ensures status.Some? ==> Ended(old(existing)) && status == Some(Truncated)
      ensures status.Some? <==> !rolling && 0 < limits.maxSessionSize <= old(totalFileSize + file.value.bytes)
      ensures old(Below()) && status.None? ==> segments == old(segments) && totalFileSize == old(totalFileSize) && file == old(file)
    {
      hide Ledger, Logged, Sized;
      if !rolling && ReachedSessionLimit() {
        Complete(Truncated);
      } else if ReachedSegmentLimit() {
        Rotate();
      }
    }

    /** The recorder's event loop, for every way the select statement may choose. */
    method Run(ch: StreamModel.Channel, choices: seq<Choice>)
      requires Valid() && Below() && status.None? && written == [] && Consistent(ch, choices)
      modifies this
      ensures existing == old(existing) && Logged() && Ledger()
      ensures status.Some? ==> Ended(old(existing))
      ensures status == Some(Completed) ==>
                ch.ending.Some? && ch.ending.value.cause.PipelineClosed? && written == Flatten(ch.sent)
      ensures status == Some(Partial) ==> DidOverflow(ch) || WasCancelled(choices)
      ensures status == Some(Failed) ==> SomeWriteFails(choices)
      ensures status == Some(Truncated) ==> !rolling && 0 < limits.maxSessionSize <= totalFileSize
      ensures status.None? ==> NoneEnds(choices) && Below() && BatchesIn(choices) <= |ch.sent|
                               && written == Flatten(ch.sent[..BatchesIn(choices)])
      ensures status.None? && FlushTick in choices && !rolling && limits.maxSessionSize > 0 ==>
                file.Some? && totalFileSize + file.value.bytes < limits.maxSessionSize
    {
      hide Ledger, Logged, Sized, Possible, Over, Going;
      Fresh(ch, choices);
      var taken, dropped, i := 0, false, 0;
      while i < |choices| && status.None?
        invariant 0 <= i <= |choices| && existing == old(existing)
        invariant if status.None? then Going(ch, choices, i, taken, dropped) else Over(ch, choices, old(existing))
        decreases |choices| - i
      {
        taken, dropped := Turn(ch, choices, i, taken, dropped);
        i := i + 1;
      }
      if status.None? {
        Unfinished(ch, choices, taken, dropped);
      } else {
        Finished(ch, choices, old(existing));
      }
    }

    /** The recorder is still at work after the first i turns. */
    ghost predicate Going(ch: StreamModel.Channel, choices: seq<Choice>, i: nat, taken: nat, dropped: bool)
      reads this
    {
      && status.None? && Valid() && Below() && i <= |choices| && NoneEnds(choices[..i])
      && taken == BatchesIn(choices[..i]) <= |ch.sent| && written == Flatten(ch.sent[..taken])
      && (dropped ==> DidOverflow(ch)) && (FlushTick in choices[..i] ==> !AtSessionLimit())
    }

    /** A normal recording is as large as it may be. */
    ghost predicate AtSessionLimit()
      reads this
    {
      !rolling && file.Some? && 0 < limits.maxSessionSize <= totalFileSize + file.value.bytes
    }

    /** The recorder has ended, with the status that what it saw calls for. */
    ghost predicate Over(ch: StreamModel.Channel, choices: seq<Choice>, existing: seq<Segment>)
      reads this
    {
      && Ended(existing)
      && (status == Some(Completed) ==>
            ch.ending.Some? && ch.ending.value.cause.PipelineClosed? && written == Flatten(ch.sent))
      && (status == Some(Partial) ==> DidOverflow(ch) || WasCancelled(choices))
      && (status == Some(Failed) ==> SomeWriteFails(choices))
    }

    lemma Fresh(ch: StreamModel.Channel, choices: seq<Choice>)
      requires Valid() && Below() && status.None? && written == []
      ensures Going(ch, choices, 0, 0, false)
    {
      assert ch.sent[..0] == [] && choices[..0] == [];
    }

    lemma Unfinished(ch: StreamModel.Channel, choices: seq<Choice>, taken: nat, dropped: bool)
      requires Going(ch, choices, |choices|, taken, dropped)
      ensures Logged() && Ledger() && Below() && NoneEnds(choices) && (FlushTick in choices ==> !AtSessionLimit())
      ensures taken == BatchesIn(choices) <= |ch.sent| && written == Flatten(ch.sent[..taken])
    {
      assert choices[..|choices|] == choices;
    }

    lemma Finished(ch: StreamModel.Channel, choices: seq<Choice>, existing: seq<Segment>)
      requires Over(ch, choices, existing)
      ensures Logged() && Ledger() && Ended(existing)
      ensures status == Some(Completed) ==>
                ch.ending.Some? && ch.ending.value.cause.PipelineClosed? && written == Flatten(ch.sent)
      ensures status == Some(Partial) ==> DidOverflow(ch) || WasCancelled(choices)
      ensures status == Some(Failed) ==> SomeWriteFails(choices)
      ensures status == Some(Truncated) ==> !rolling && 0 < limits.maxSessionSize <= totalFileSize
    {
    }

    /** The turn in which a batch arrives. */
    method TakeBatch(ch: StreamModel.Channel, choices: seq<Choice>, i: nat, taken: nat, ghost dropped: bool)
      requires i < |choices| && Going(ch, choices, i, taken, dropped) && Consistent(ch, choices) && choices[i].GotBatch?
      modifies this
      ensures existing == old(existing)
      ensures if status.None? then Going(ch, choices, i + 1, taken + 1, dropped) else Over(ch, choices, existing)
    {
      OneTurn(choices, i);
      assert Possible(ch, BatchesIn(choices[..i]), choices[i]);
      PossibleBatch(ch, taken, choices[i]);
      hide Ledger, Logged, Sized, Possible, NoneEnds, BatchesIn, Flatten, Consistent;
      HandleBatch(ch.sent[taken], choices[i].encoded);
    }

    /** One turn of the event loop. */
    method Turn(ch: StreamModel.Channel, choices: seq<Choice>, i: nat, taken: nat, dropped: bool)
      returns (taken': nat, dropped': bool)
      requires i < |choices| && Going(ch, choices, i, taken, dropped) && Consistent(ch, choices)
      modifies this
      ensures existing == old(existing)
      ensures if status.None? then Going(ch, choices, i + 1, taken', dropped') else Over(ch, choices, existing)
    {
      hide Going, Over, Possible;
      taken', dropped' := taken, dropped;
      match choices[i] {
        case GotBatch(encoded) =>
          TakeBatch(ch, choices, i, taken, dropped);
          taken' := taken + 1;
        case QueueEnded(cancelled) => Stop(ch, choices, i, taken, dropped);
        case DropSeen =>
          StayOn(ch, choices, i, taken, dropped);
          dropped' := true;
        case FlushTick => FlushOrStop(ch, choices, i, taken, dropped);
        case SyncTick => StayOn(ch, choices, i, taken, dropped);
        case ContextDone => Stop(ch, choices, i, taken, dropped);
      }
    }

    /** The turn in which the queue has ended or the context is done. */
    method Stop(ch: StreamModel.Channel, choices: seq<Choice>, i: nat, ghost taken: nat, dropped: bool)
      requires i < |choices| && Going(ch, choices, i, taken, dropped) && Consistent(ch, choices)
      requires choices[i].QueueEnded? || choices[i].ContextDone?
      modifies this
      ensures existing == old(existing) && status.Some? && Over(ch, choices, existing)
    {
      hide Ledger, Logged, Sized, Possible;
      if choices[i].QueueEnded? {
        assert Possible(ch, BatchesIn(choices[..i]), choices[i]);
        PossibleEnd(ch, taken, choices[i]);
        HandleEnd(ch, choices[i].cancelled, dropped);
      } else {
        Complete(Partial);
      }
    }

    method FlushOrStop(ch: StreamModel.Channel, choices: seq<Choice>, i: nat, ghost taken: nat, ghost dropped: bool)
      requires i < |choices| && Going(ch, choices, i, taken, dropped) && choices[i].FlushTick?
      modifies this
      ensures existing == old(existing)
      ensures if status.None? then Going(ch, choices, i + 1, taken, dropped) else Over(ch, choices, existing)
    {
      OneTurn(choices, i);
      hide Ledger, Logged, Sized, NoneEnds, BatchesIn, Flatten;
      HandleFlush();
    }

    /** A turn that only takes notice, perhaps of an overflow. */
    lemma StayOn(ch: StreamModel.Channel, choices: seq<Choice>, i: nat, taken: nat, dropped: bool)
      requires i < |choices| && Going(ch, choices, i, taken, dropped) && Consistent(ch, choices)
      requires choices[i].SyncTick? || choices[i].DropSeen?
      ensures status.None? && Going(ch, choices, i + 1, taken, dropped || choices[i].DropSeen?)
    {
      OneTurn(choices, i);
      assert Possible(ch, BatchesIn(choices[..i]), choices[i]);
      hide Ledger, Logged, Sized, NoneEnds, BatchesIn, Flatten, Consistent;
    }
  }

  /** What one more turn adds to what was seen. */
  lemma OneTurn(choices: seq<Choice>, i: nat)
    requires i < |choices|
    ensures BatchesIn(choices[..i + 1]) == BatchesIn(choices[..i]) + if choices[i].GotBatch? then 1 else 0
    ensures NoneEnds(choices[..i]) && !choices[i].QueueEnded? && choices[i] != ContextDone ==> NoneEnds(choices[..i + 1])
    ensures FlushTick in choices[..i + 1] <==> FlushTick in choices[..i] || choices[i] == FlushTick
  {
    assert choices[..i + 1] == choices[..i] + [choices[i]];
    assert choices[..i + 1][..i] == choices[..i];
  }

  lemma PossibleBatch(ch: StreamModel.Channel, taken: nat, choice: Choice)
    requires Possible(ch, taken, choice) && choice.GotBatch?
    ensures taken < |ch.sent| && |choice.encoded| == |ch.sent[taken].packets|
    ensures forall i :: 0 <= i < |choice.encoded| && choice.encoded[i].Encoded? ==> choice.encoded[i].bytes > 0
    ensures Flatten(ch.sent[..taken + 1]) == Flatten(ch.sent[..taken]) + LabelsOf(ch.sent[taken])
  {
    assert ch.sent[..taken + 1] == ch.sent[..taken] + [ch.sent[taken]];
    FlattenPush(ch.sent[..taken], ch.sent[taken]);
  }

  lemma PossibleEnd(ch: StreamModel.Channel, taken: nat, choice: Choice)
    requires Possible(ch, taken, choice) && choice.QueueEnded?
    ensures ch.ending.Some? && ch.sent[..taken] == ch.sent && (ch.ending.value.cause.Removed? ==> choice.cancelled)
  {
  }

  /** A COMPLETED recording is lossless: run a recorder on the loss-aware queue it got from a pipeline;
      if it ends COMPLETED, what it wrote over all its segments, pruned ones included, is exactly what
      the pipeline emitted from the subscription until it was closed, in order and each packet once. */
  method RecordSession(config: StreamModel.Config, ghost trace: seq<StreamModel.Event>, id: nat,
                       ch: StreamModel.Channel, recorder: SessionRecorder, choices: seq<Choice>)
    requires StreamModel.After(config, trace).Some?
    requires id in StreamModel.After(config, trace).value.channels && ch == StreamModel.After(config, trace).value.channels[id]
    requires ch.lossAware && Consistent(ch, choices)
    requires recorder.Valid() && recorder.Below() && recorder.status.None? && recorder.written == []
    modifies recorder
    ensures recorder.status == Some(Completed) ==>
              && ch.ending.Some? && ch.ending.value.cause.PipelineClosed?
              && ch.since <= ch.ending.value.at <= |StreamModel.After(config, trace).value.batches|
              && recorder.written == Flatten(StreamModel.After(config, trace).value.batches[ch.since..ch.ending.value.at])
              && recorder.written == ContentsOf(recorder.finished)
              && recorder.packetCount == CountOf(recorder.finished) == |recorder.written|
  {
    recorder.Run(ch, choices);
    LossAwareIsContiguous(config, trace, id);
    if recorder.status == Some(Completed) {
      CountIsContents(recorder.finished);
    }
  }
}
