/** What every run of the pipeline keeps about its subscribers: which batches reach each queue,
    how each queue ends, and that no subscriber depends on another. */
module StreamDelivery {
  import opened Options
  import opened Packets
  import opened StreamModel
  import opened StreamOrder

  // ---------- Emitted batches are the emitted packets ----------

  /** A packet together with the stream it is labelled with. */
  datatype Labelled = Labelled(template: Template, packet: Packet)

  function LabelsOf(batch: Batch): (r: seq<Labelled>)
    ensures |r| == |batch.packets|
    ensures forall i :: 0 <= i < |r| ==> r[i] == Labelled(batch.template, batch.packets[i])
  {
    seq(|batch.packets|, i requires 0 <= i < |batch.packets| => Labelled(batch.template, batch.packets[i]))
  }

  function Flatten(batches: seq<Batch>): seq<Labelled> {
    if batches == [] then [] else Flatten(batches[..|batches| - 1]) + LabelsOf(batches[|batches| - 1])
  }

  function Labels(items: seq<Item>): (r: seq<Labelled>)
    ensures |r| == |items|
    ensures forall i :: 0 <= i < |r| ==> r[i] == Labelled(items[i].template, items[i].packet)
  {
    seq(|items|, i requires 0 <= i < |items| => Labelled(items[i].template, items[i].packet))
  }

  /** The limits a subscriber may rely on in every batch: one packet may exceed the bytes, two may not. */
  ghost predicate WithinLimits(config: Config, batch: Batch) {
    1 <= |batch.packets| <= config.maxPackets && (|batch.packets| > 1 ==> Bytes(batch.packets) <= config.maxBytes)
  }

  lemma GrownWithinLimits(config: Config, items: seq<Item>)
    requires Normalized(config) && Grown(config, items)
    ensures WithinLimits(config, BatchOf(items))
    ensures forall i :: 0 <= i < |items| ==> items[i].template == items[0].template
  {
    var n := |items| - 1;
    if n >= 1 {
      assert Joins(config, items[..n], items[n]);
      assert PacketsOf(items[..n]) == PacketsOf(items)[..n];
    }
    forall i | 1 <= i < |items| ensures items[i].template == items[0].template {
      assert Joins(config, items[..i], items[i]);
    }
  }

  ghost predicate Carries(config: Config, s: State) {
    && Flatten(s.batches) == Labels(s.emitted)
    && forall k :: 0 <= k < |s.batches| ==> WithinLimits(config, s.batches[k])
  }

  /** In every reachable state the batches, laid end to end, are the emitted packets with the labels
      they were published under, and each batch keeps the limits. */
  lemma {:induction false} BatchesCarryEmitted(config: Config, run: seq<Event>)
    requires Normalized(config) && After(config, run).Some?
    ensures Carries(config, After(config, run).value)
    decreases |run|
  {
    if run != [] {
      BatchesCarryEmitted(config, run[..|run| - 1]);
      CarriesStep(config, After(config, run[..|run| - 1]).value, run[|run| - 1]);
    }
  }

  lemma CarriesStep(config: Config, s: State, e: Event)
    requires Normalized(config) && Enabled(config, s, e) && Carries(config, s)
    ensures Carries(config, Apply(config, s, e))
  {
    hide Complete, LeastFirst, LateCount, OfferAll, CloseAll, Flatten, WithinLimits;
    if e.Emit? {
      EmitCarries(config, s, e.items);
    }
  }

  lemma EmitCarries(config: Config, s: State, items: seq<Item>)
    requires Normalized(config) && Flatten(s.batches) == Labels(s.emitted) && Grown(config, items)
    ensures Flatten(s.batches + [BatchOf(items)]) == Labels(s.emitted + items)
    ensures WithinLimits(config, BatchOf(items))
  {
    GrownWithinLimits(config, items);
    FlattenPush(s.batches, BatchOf(items));
    assert LabelsOf(BatchOf(items)) == Labels(items);
    assert Labels(s.emitted + items) == Labels(s.emitted) + Labels(items);
  }

  lemma FlattenPush(batches: seq<Batch>, batch: Batch)
    ensures Flatten(batches + [batch]) == Flatten(batches) + LabelsOf(batch)
  {
    assert (batches + [batch])[..|batches|] == batches;
  }

  // ---------- Queues ----------

  /** Up to which emitted batch a queue has been served. */
  function ServedUpTo(ch: Channel, emitted: nat): nat {
    if ch.ending.Some? then ch.ending.value.at else emitted
  }

  ghost predicate QueueOk(ch: Channel) {
    ch.taken <= |ch.sent| && |ch.sent| - ch.taken <= ch.capacity && |ch.sentAt| == |ch.sent| && ch.capacity >= 1
  }

  /** The sent batches are emitted ones, in order, none twice. */
  ghost predicate SentInOrder(ch: Channel, batches: seq<Batch>)
    requires |ch.sentAt| == |ch.sent|
  {
    && ch.since <= ServedUpTo(ch, |batches|) <= |batches|
    && (forall i :: 0 <= i < |ch.sent| ==>
          ch.since <= ch.sentAt[i] < ServedUpTo(ch, |batches|) && ch.sent[i] == batches[ch.sentAt[i]])
    && (forall i, j :: 0 <= i < j < |ch.sent| ==> ch.sentAt[i] < ch.sentAt[j])
  }

  /** A loss-aware queue holds every batch since its subscription; it ends in an overflow exactly when
      the one after them did not fit. */
  ghost predicate GapFree(ch: Channel, emitted: nat)
    requires |ch.sentAt| == |ch.sent|
  {
    ch.lossAware ==>
      && (forall i :: 0 <= i < |ch.sent| ==> ch.sentAt[i] == ch.since + i)
      && ServedUpTo(ch, emitted) == ch.since + |ch.sent| + if DidOverflow(ch) then 1 else 0
  }

  predicate DidOverflow(ch: Channel) {
    ch.ending.Some? && ch.ending.value.cause == Overflowed
  }

  /** Delivered and dropped packets are those emitted while subscribed. */
  ghost predicate NothingUncounted(ch: Channel, batches: seq<Batch>)
    requires ch.since <= ServedUpTo(ch, |batches|) <= |batches|
  {
    |Flatten(ch.sent)| + ch.droppedPackets == |Flatten(batches[ch.since..ServedUpTo(ch, |batches|)])|
  }

  ghost predicate ChannelOk(ch: Channel, batches: seq<Batch>) {
    QueueOk(ch) && SentInOrder(ch, batches) && GapFree(ch, |batches|) && NothingUncounted(ch, batches)
    && (DidOverflow(ch) ==> ch.lossAware)
  }

  ghost predicate ChannelsOk(s: State) {
    && (forall id :: id in s.channels ==> id < s.nextID && ChannelOk(s.channels[id], s.batches))
    && (s.closed ==> forall id :: id in s.channels ==> !s.channels[id].Open())
  }

  lemma OfferSentInOrder(ch: Channel, batches: seq<Batch>, batch: Batch)
    requires QueueOk(ch) && SentInOrder(ch, batches) && ch.Open()
    ensures QueueOk(ch.Offer(batch, |batches|)) && SentInOrder(ch.Offer(batch, |batches|), batches + [batch])
  {
  }

  lemma OfferGapFree(ch: Channel, batch: Batch, emitted: nat)
    requires QueueOk(ch) && GapFree(ch, emitted) && ch.Open()
    ensures |ch.Offer(batch, emitted).sentAt| == |ch.Offer(batch, emitted).sent|
    ensures GapFree(ch.Offer(batch, emitted), emitted + 1)
  {
  }

  lemma OfferCounts(ch: Channel, batches: seq<Batch>, batch: Batch)
    requires QueueOk(ch) && ch.Open() && ch.since <= |batches| && NothingUncounted(ch, batches)
    ensures NothingUncounted(ch.Offer(batch, |batches|), batches + [batch])
  {
    hide Flatten;
    var old' := batches[ch.since..|batches|];
    assert (batches + [batch])[ch.since..|batches| + 1] == old' + [batch];
    FlattenPush(old', batch);
    FlattenPush(ch.sent, batch);
  }

  lemma OfferKeepsOk(ch: Channel, batches: seq<Batch>, batch: Batch)
    requires ChannelOk(ch, batches) && ch.Open()
    ensures ChannelOk(ch.Offer(batch, |batches|), batches + [batch])
  {
    OfferSentInOrder(ch, batches, batch);
    OfferGapFree(ch, batch, |batches|);
    OfferCounts(ch, batches, batch);
  }

  lemma SkipKeepsOk(ch: Channel, batches: seq<Batch>, batch: Batch)
    requires ChannelOk(ch, batches) && !ch.Open()
    ensures ChannelOk(ch, batches + [batch])
  {
    var all, end := batches + [batch], ServedUpTo(ch, |batches|);
    assert SentInOrder(ch, all);
    assert all[ch.since..end] == batches[ch.since..end];
  }

  lemma CloseKeepsOk(ch: Channel, batches: seq<Batch>, cause: Cause)
    requires ChannelOk(ch, batches) && ch.Open() && cause != Overflowed
    ensures ChannelOk(ch.Close(cause, |batches|), batches)
  {
  }

  lemma ReceiveKeepsOk(ch: Channel, batches: seq<Batch>)
    requires ChannelOk(ch, batches) && ch.taken < |ch.sent|
    ensures ChannelOk(ch.Receive(), batches)
  {
  }

  lemma NewChannelOk(config: Config, queueSize: int, lossAware: bool, batches: seq<Batch>)
    requires config.queueSize >= 1
    ensures ChannelOk(NewChannel(config, queueSize, lossAware, |batches|), batches)
  {
    assert batches[|batches|..|batches|] == [];
  }

  lemma EmitKeepsChannels(config: Config, s: State, e: Event)
    requires e.Emit? && Enabled(config, s, e) && ChannelsOk(s)
    ensures ChannelsOk(Apply(config, s, e))
  {
    var t, batch := Apply(config, s, e), BatchOf(e.items);
    forall id | id in t.channels ensures id < t.nextID && ChannelOk(t.channels[id], t.batches) {
      if s.channels[id].Open() {
        OfferKeepsOk(s.channels[id], s.batches, batch);
      } else {
        SkipKeepsOk(s.channels[id], s.batches, batch);
      }
    }
  }

  lemma CloseKeepsChannels(config: Config, s: State)
    requires ChannelsOk(s)
    ensures ChannelsOk(Apply(config, s, MarkClosed))
  {
    var t := Apply(config, s, MarkClosed);
    forall id | id in t.channels ensures id < t.nextID && ChannelOk(t.channels[id], t.batches) {
      if s.channels[id].Open() {
        CloseKeepsOk(s.channels[id], s.batches, PipelineClosed);
      }
    }
  }

  lemma OneChannelChanged(s: State, id: nat, ch: Channel, nextID: nat)
    requires ChannelsOk(s) && ChannelOk(ch, s.batches) && id < nextID && s.nextID <= nextID
    requires s.closed ==> !ch.Open()
    ensures ChannelsOk(s.(channels := s.channels[id := ch], nextID := nextID))
  {
  }

  lemma SubscribeKeepsChannels(config: Config, s: State, e: Event)
    requires e.Subscribe? && Enabled(config, s, e) && ChannelsOk(s)
    ensures ChannelsOk(Apply(config, s, e))
  {
    if !s.closed {
      NewChannelOk(config, e.queueSize, e.lossAware, s.batches);
      OneChannelChanged(s, s.nextID, NewChannel(config, e.queueSize, e.lossAware, |s.batches|), s.nextID + 1);
    }
  }

  lemma RemoveKeepsChannels(config: Config, s: State, e: Event)
    requires e.Remove? && ChannelsOk(s)
    ensures ChannelsOk(Apply(config, s, e))
  {
    if e.id in s.channels && s.channels[e.id].Open() {
      CloseKeepsOk(s.channels[e.id], s.batches, Removed);
      OneChannelChanged(s, e.id, s.channels[e.id].Close(Removed, |s.batches|), s.nextID);
    }
  }

  lemma ReceiveKeepsChannels(config: Config, s: State, e: Event)
    requires e.Receive? && Enabled(config, s, e) && ChannelsOk(s)
    ensures ChannelsOk(Apply(config, s, e))
  {
    ReceiveKeepsOk(s.channels[e.id], s.batches);
    hide ChannelOk;
    OneChannelChanged(s, e.id, s.channels[e.id].Receive(), s.nextID);
  }

  lemma ChannelsOkStep(config: Config, s: State, e: Event)
    requires Enabled(config, s, e) && ChannelsOk(s)
    ensures ChannelsOk(Apply(config, s, e))
  {
    match e
    case Publish(_, _, _) =>
    case Emit(_, _) => EmitKeepsChannels(config, s, e);
    case Subscribe(_, _) => SubscribeKeepsChannels(config, s, e);
    case Remove(_) => RemoveKeepsChannels(config, s, e);
    case Receive(_) => ReceiveKeepsChannels(config, s, e);
    case MarkClosed => CloseKeepsChannels(config, s);
  }

  /** Over every run each queue is gap-free or fully accounted for, and stays within its capacity. */
  lemma {:induction false} Delivery(config: Config, run: seq<Event>)
    requires After(config, run).Some?
    ensures ChannelsOk(After(config, run).value)
    decreases |run|
  {
    if run != [] {
      Delivery(config, run[..|run| - 1]);
      ChannelsOkStep(config, After(config, run[..|run| - 1]).value, run[|run| - 1]);
    }
  }

  /** A loss-aware queue that did not overflow was sent exactly the batches emitted from its
      subscription until it was closed; one that did overflow misses exactly the last of them. */
  lemma LossAwareIsContiguous(config: Config, run: seq<Event>, id: nat)
    requires After(config, run).Some? && id in After(config, run).value.channels
    requires After(config, run).value.channels[id].lossAware
    ensures var s := After(config, run).value;
            var ch := s.channels[id];
            var end := ServedUpTo(ch, |s.batches|);
            ch.since <= end <= |s.batches| &&
            if DidOverflow(ch) then end > ch.since && ch.sent == s.batches[ch.since..end - 1]
            else ch.sent == s.batches[ch.since..end]
  {
    Delivery(config, run);
    ContiguousIsSlice(After(config, run).value.channels[id], After(config, run).value.batches);
  }

  /** What a queue may become later in a run: it only gains batches and receptions, and once closed
      it is closed for good, with nothing sent to it and no second closing. */
  ghost predicate Continues(was: Channel, now: Channel) {
    && was.sent <= now.sent && was.sentAt <= now.sentAt && was.taken <= now.taken
    && was.droppedPackets <= now.droppedPackets
    && now.capacity == was.capacity && now.lossAware == was.lossAware && now.since == was.since
    && (!was.Open() ==> now == was.(taken := now.taken))
  }

  lemma ContinuesStep(config: Config, s: State, e: Event, id: nat)
    requires Enabled(config, s, e) && id in s.channels && id < s.nextID
    ensures id in Apply(config, s, e).channels && Continues(s.channels[id], Apply(config, s, e).channels[id])
  {
    if e.Emit? {
      FromBuffer(config, s.buffer, e.mode, e.items);
      OfferedTo(s.channels, id, BatchOf(e.items), |s.batches|);
    }
    hide OneBatch, Complete, LateCount, OfferAll, Receivable;
  }

  lemma OfferedTo(channels: map<nat, Channel>, id: nat, batch: Batch, index: nat)
    requires Receivable(channels) && id in channels
    ensures id in OfferAll(channels, batch, index) && Continues(channels[id], OfferAll(channels, batch, index)[id])
  {
  }

  lemma {:induction false} ClosedForGood(config: Config, start: seq<Event>, rest: seq<Event>, id: nat)
    requires After(config, start).Some? && After(config, start + rest).Some? && id in After(config, start).value.channels
    ensures id in After(config, start + rest).value.channels
    ensures Continues(After(config, start).value.channels[id], After(config, start + rest).value.channels[id])
    decreases |rest|
  {
    if rest == [] {
      assert start + rest == start;
    } else {
      var n := |rest| - 1;
      assert (start + rest)[..|start + rest| - 1] == start + rest[..n];
      ClosedForGood(config, start, rest[..n], id);
      Delivery(config, start + rest[..n]);
      var s := After(config, start + rest[..n]).value;
      ContinuesStep(config, s, rest[n], id);
      hide Enabled, Apply;
      ContinuesOn(After(config, start).value.channels[id], s.channels[id], Apply(config, s, rest[n]).channels[id]);
      hide Continues;
    }
  }

  lemma ContinuesOn(a: Channel, b: Channel, c: Channel)
    requires Continues(a, b) && Continues(b, c)
    ensures Continues(a, c)
  {
  }

  /** A queue with room took the batch; of those without, the loss-aware ones, and only they, were
      closed with their drop signal. */
  ghost predicate TookOrMissed(was: Channel, now: Channel, batch: Batch) {
    && |was.sent| - was.taken <= was.capacity
    && now.sent == (if |was.sent| - was.taken < was.capacity then was.sent + [batch] else was.sent)
    && (DidOverflow(now) <==> was.lossAware && |was.sent| - was.taken == was.capacity)
    && (now.Open() <==> !DidOverflow(now))
  }

  /** An open queue gets the next batch exactly when it has room, whoever else is subscribed. */
  lemma DroppedIffFull(config: Config, run: seq<Event>, mode: Mode, items: seq<Item>, id: nat)
    requires After(config, run).Some? && After(config, run + [Emit(mode, items)]).Some?
    requires id in After(config, run).value.channels && After(config, run).value.channels[id].Open()
    ensures id in After(config, run + [Emit(mode, items)]).value.channels && items != []
    ensures TookOrMissed(After(config, run).value.channels[id],
                         After(config, run + [Emit(mode, items)]).value.channels[id], BatchOf(items))
  {
    assert (run + [Emit(mode, items)])[..|run|] == run;
    Delivery(config, run);
    var s := After(config, run).value;
    OfferedIffRoom(s.channels[id], BatchOf(items), |s.batches|);
  }

  lemma OfferedIffRoom(was: Channel, batch: Batch, index: nat)
    requires QueueOk(was) && was.Open()
    ensures TookOrMissed(was, was.Offer(batch, index), batch)
  {
  }

  lemma ContiguousIsSlice(ch: Channel, batches: seq<Batch>)
    requires ChannelOk(ch, batches) && ch.lossAware
    ensures ch.sent == batches[ch.since..ch.since + |ch.sent|]
  {
  }

  // ---------- Every subscriber sees each source in order ----------

  ghost predicate Increasing(labels: seq<Labelled>, t: Template) {
    forall i, j :: 0 <= i < j < |labels| && labels[i].template == labels[j].template == t
                   ==> labels[i].packet.sequence < labels[j].packet.sequence
  }

  /** A source's items keep their relative positions when filtered. */
  lemma {:induction false} FilterIncreasing(s: seq<Item>, t: Template)
    requires InOrder(Of(s, t))
    ensures Increasing(Labels(s), t)
    decreases |s|
  {
    if s != [] {
      var n := |s| - 1;
      assert forall i :: 0 <= i < |Of(s[..n], t)| ==> Of(s, t)[i] == Of(s[..n], t)[i];
      FilterIncreasing(s[..n], t);
      forall i, j | 0 <= i < j < |s| && s[i].template == s[j].template == t
        ensures s[i].packet.sequence < s[j].packet.sequence
      {
        if j < n {
          assert Labels(s[..n])[i].packet.sequence < Labels(s[..n])[j].packet.sequence;
        } else {
          BeforeLast(s, i, t);
        }
      }
    }
  }

  lemma {:induction false} FilterHolds(s: seq<Item>, i: nat, t: Template)
    requires i < |s| && s[i].template == t
    ensures exists k :: 0 <= k < |Of(s, t)| && Of(s, t)[k] == s[i]
    decreases |s|
  {
    var n := |s| - 1;
    if i < n {
      FilterHolds(s[..n], i, t);
      var k :| 0 <= k < |Of(s[..n], t)| && Of(s[..n], t)[k] == s[i];
      assert Of(s, t)[k] == s[i];
    } else {
      assert Of(s, t)[|Of(s[..n], t)|] == s[i];
    }
  }

  lemma BeforeLast(s: seq<Item>, i: nat, t: Template)
    requires i < |s| - 1 && s[i].template == s[|s| - 1].template == t && InOrder(Of(s, t))
    ensures s[i].packet.sequence < s[|s| - 1].packet.sequence
  {
    var front := Of(s[..|s| - 1], t);
    FilterHolds(s[..|s| - 1], i, t);
    var k :| 0 <= k < |front| && front[k] == s[i];
    assert Of(s, t)[k] == s[i] && Of(s, t)[|front|] == s[|s| - 1];
  }

  ghost predicate Among(some: seq<Labelled>, all: seq<Labelled>) {
    forall x :: x in some ==> x in all
  }

  /** Leaving batches out keeps a source's order. */
  lemma {:induction false} SelectionIncreasing(batches: seq<Batch>, sent: seq<Batch>, sentAt: seq<nat>, bound: nat, t: Template)
    requires Increasing(Flatten(batches), t) && |sentAt| == |sent| && bound <= |batches|
    requires forall i :: 0 <= i < |sent| ==> sentAt[i] < bound && sent[i] == batches[sentAt[i]]
    requires forall i, j :: 0 <= i < j < |sent| ==> sentAt[i] < sentAt[j]
    ensures Increasing(Flatten(sent), t) && Among(Flatten(sent), Flatten(batches[..bound]))
    decreases |sent|
  {
    if sent == [] {
      NoneIncreasing(t);
    } else {
      var n := |sent| - 1;
      var k := sentAt[n];
      SelectionIncreasing(batches, sent[..n], sentAt[..n], k, t);
      assert Flatten(sent) == Flatten(sent[..n]) + LabelsOf(batches[k]);
      hide Increasing, Flatten, Among;
      SelectOneMore(batches, k, bound, Flatten(sent[..n]), t);
    }
  }

  lemma SelectOneMore(batches: seq<Batch>, k: nat, bound: nat, front: seq<Labelled>, t: Template)
    requires Increasing(Flatten(batches), t) && k < bound <= |batches|
    requires Increasing(front, t) && Among(front, Flatten(batches[..k]))
    ensures Increasing(front + LabelsOf(batches[k]), t)
    ensures Among(front + LabelsOf(batches[k]), Flatten(batches[..bound]))
  {
    hide Increasing, Flatten;
    TakeOneMore(batches, k);
    FlattenPrefix(batches, k + 1, bound);
    FlattenPrefix(batches, k + 1, |batches|);
    assert batches[..|batches|] == batches;
    AppendIncreasing(front, Flatten(batches[..k]), LabelsOf(batches[k]), Flatten(batches), t);
    AppendAmong(front, Flatten(batches[..k]), LabelsOf(batches[k]), Flatten(batches[..bound]));
  }

  lemma AppendAmong(front: seq<Labelled>, upTo: seq<Labelled>, last: seq<Labelled>, all: seq<Labelled>)
    requires Among(front, upTo) && upTo + last <= all
    ensures Among(front + last, all)
  {
    forall x | x in front + last ensures x in all {
      assert x in upTo + last;
      var i :| 0 <= i < |upTo + last| && (upTo + last)[i] == x;
      assert all[i] == x;
    }
  }

  lemma TakeOneMore(batches: seq<Batch>, k: nat)
    requires k < |batches|
    ensures Flatten(batches[..k + 1]) == Flatten(batches[..k]) + LabelsOf(batches[k])
  {
    assert batches[..k + 1][..k] == batches[..k];
  }

  lemma {:induction false} FlattenPrefix(batches: seq<Batch>, a: nat, b: nat)
    requires a <= b <= |batches|
    ensures Flatten(batches[..a]) <= Flatten(batches[..b])
    decreases b
  {
    if a < b {
      FlattenPrefix(batches, a, b - 1);
      TakeOneMore(batches, b - 1);
    }
  }

  lemma NoneIncreasing(t: Template)
    ensures Increasing([], t)
  {
  }

  lemma AppendIncreasing(front: seq<Labelled>, upTo: seq<Labelled>, last: seq<Labelled>, all: seq<Labelled>, t: Template)
    requires Increasing(front, t) && Increasing(all, t) && upTo + last <= all
    requires Among(front, upTo)
    ensures Increasing(front + last, t)
  {
    var both := front + last;
    forall i, j | 0 <= i < j < |both| && both[i].template == both[j].template == t
      ensures both[i].packet.sequence < both[j].packet.sequence
    {
      if j >= |front| {
        var q := |upTo| + (j - |front|);
        assert all[q] == (upTo + last)[q] == both[j];
        if i < |front| {
          assert both[i] in upTo;
          var p :| 0 <= p < |upTo| && upTo[p] == both[i];
          assert all[p] == (upTo + last)[p] == both[i];
        } else {
          var p := |upTo| + (i - |front|);
          assert all[p] == (upTo + last)[p] == both[i];
        }
      }
    }
  }

  /** If a source published in order, every subscriber is sent that source's packets with strictly
      increasing sequence numbers, whatever it missed and whatever other sources do. */
  lemma SubscriberSeesSourceInOrder(config: Config, run: seq<Event>, t: Template, id: nat)
    requires Normalized(config) && After(config, run).Some? && InOrder(Of(After(config, run).value.accepted, t))
    requires id in After(config, run).value.channels
    ensures Increasing(Flatten(After(config, run).value.channels[id].sent), t)
  {
    var s := After(config, run).value;
    SourceOrder(config, run, t);
    assert InOrder(Of(s.emitted, t)) by {
      var a, e := Of(s.accepted, t), Of(s.emitted, t);
      assert forall i :: 0 <= i < |e| ==> e[i] == a[i];
    }
    FilterIncreasing(s.emitted, t);
    BatchesCarryEmitted(config, run);
    Delivery(config, run);
    SelectionIncreasing(s.batches, s.channels[id].sent, s.channels[id].sentAt, |s.batches|, t);
  }

  // ---------- Subscribers do not affect each other ----------

  /** What is left of a run when only this subscriber is there: the others' events go, and its own
      carry the first identifier. */
  ghost function Alone(config: Config, run: seq<Event>, id: nat): seq<Event> {
    if run == [] then []
    else
      var prior, e := run[..|run| - 1], run[|run| - 1];
      if IsOwn(After(config, prior), e, id) then Alone(config, prior, id) + [Renamed(e)] else Alone(config, prior, id)
  }

  /** Does the event concern this subscriber? Only the subscription that creates it does. */
  predicate IsOwn(before: Option<State>, e: Event, id: nat) {
    match e
    case Subscribe(_, _) => before.Some? && before.value.nextID == id
    case Remove(i) => i == id
    case Receive(i) => i == id
    case _ => true
  }

  function Renamed(e: Event): Event {
    match e
    case Remove(_) => Remove(0)
    case Receive(_) => Receive(0)
    case _ => e
  }

  /** The same pipeline as far as one subscriber can tell, alone in the second. */
  ghost predicate SameFor(s: State, t: State, id: nat) {
    && s.buffer == t.buffer && s.lastEmitted == t.lastEmitted && s.closed == t.closed
    && s.accepted == t.accepted && s.emitted == t.emitted && s.batches == t.batches && s.late == t.late
    && (id in s.channels <==> id < s.nextID)
    && if id in s.channels then t.channels == map[0 := s.channels[id]] && t.nextID == 1
       else t.channels == map[] && t.nextID == 0
  }

  lemma OwnStep(config: Config, s: State, t: State, e: Event, id: nat)
    requires SameFor(s, t, id) && IsOwn(Some(s), e, id) && Enabled(config, s, e)
    ensures Enabled(config, t, Renamed(e)) && SameFor(Apply(config, s, e), Apply(config, t, Renamed(e)), id)
  {
    if e.Emit? {
      OwnEmit(config, s, t, e, id);
    } else {
      OwnOther(config, s, t, e, id);
    }
  }

  lemma OwnOther(config: Config, s: State, t: State, e: Event, id: nat)
    requires SameFor(s, t, id) && IsOwn(Some(s), e, id) && !e.Emit? && Enabled(config, s, e)
    ensures Enabled(config, t, Renamed(e)) && SameFor(Apply(config, s, e), Apply(config, t, Renamed(e)), id)
  {
    if e.MarkClosed? {
      OwnClose(s.channels, t.channels, |s.batches|, id);
    }
    hide LateCount, CloseAll, OfferAll, Receivable, OneBatch;
  }

  lemma OwnEmit(config: Config, s: State, t: State, e: Event, id: nat)
    requires SameFor(s, t, id) && e.Emit? && Enabled(config, s, e)
    ensures Enabled(config, t, e) && SameFor(Apply(config, s, e), Apply(config, t, e), id)
  {
    hide OneBatch, Complete, OfferAll, Receivable;
    FromBuffer(config, s.buffer, e.mode, e.items);
    OwnOffer(s.channels, t.channels, BatchOf(e.items), |s.batches|, id);
  }

  lemma OwnOffer(channels: map<nat, Channel>, alone: map<nat, Channel>, batch: Batch, index: nat, id: nat)
    requires Receivable(channels) && alone == if id in channels then map[0 := channels[id]] else map[]
    ensures Receivable(alone) && OfferAll(channels, batch, index).Keys == channels.Keys
    ensures OfferAll(alone, batch, index) == if id in channels then map[0 := OfferAll(channels, batch, index)[id]] else map[]
  {
  }

  lemma OwnClose(channels: map<nat, Channel>, alone: map<nat, Channel>, at: nat, id: nat)
    requires alone == if id in channels then map[0 := channels[id]] else map[]
    ensures CloseAll(channels, at).Keys == channels.Keys
    ensures CloseAll(alone, at) == if id in channels then map[0 := CloseAll(channels, at)[id]] else map[]
  {
  }

  lemma ForeignStep(config: Config, s: State, t: State, e: Event, id: nat)
    requires SameFor(s, t, id) && !IsOwn(Some(s), e, id) && Enabled(config, s, e)
    ensures SameFor(Apply(config, s, e), t, id)
  {
  }

  /** A run with everything other subscribers did taken out is still a run; it emits the same, and
      leaves this subscriber's queue the same. */
  lemma {:induction false} Independence(config: Config, run: seq<Event>, id: nat)
    requires After(config, run).Some?
    ensures After(config, Alone(config, run, id)).Some?
    ensures SameFor(After(config, run).value, After(config, Alone(config, run, id)).value, id)
    decreases |run|
  {
    if run != [] {
      var prior, e := run[..|run| - 1], run[|run| - 1];
      Independence(config, prior, id);
      var alone := Alone(config, prior, id);
      var s, t := After(config, prior).value, After(config, alone).value;
      if IsOwn(Some(s), e, id) {
        OwnStep(config, s, t, e, id);
        AfterExtended(config, alone, Renamed(e));
      } else {
        ForeignStep(config, s, t, e, id);
      }
      hide SameFor, Enabled, Apply, IsOwn;
    }
  }
}
