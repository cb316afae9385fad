/** A pipeline object put through a whole schedule of calls, and what a punctual schedule makes of it. */
module Schedules {
  import opened Packets
  import opened StreamModel
  import opened Pipelines
  import opened StreamOrder

  /** What the agents, the run loop, the subscribers and the session's end do to a pipeline. */
  datatype Call =
    | CallPublish(template: Template, packets: seq<Packet>, now: Time)
    | CallTick(now: Time)
    | CallSubscribe(queueSize: int, lossAware: bool)
    | CallRemove(id: nat)
    | CallReceive(id: nat)
    | CallDrain
    | CallMarkClosed

  /** The clock does not run back between a tick and a later publish, every packet is published at
      most one window after its timestamp, and nothing is published after the drain. */
  ghost predicate PunctualCalls(config: Config, calls: seq<Call>) {
    && (forall i, j :: 0 <= i < j < |calls| && calls[i].CallTick? && calls[j].CallPublish? ==> calls[i].now <= calls[j].now)
    && (forall i, j :: 0 <= i < j < |calls| && calls[i].CallDrain? ==> !calls[j].CallPublish?)
    && (forall j, k :: 0 <= j < |calls| && calls[j].CallPublish? && 0 <= k < |calls[j].packets|
                       ==> calls[j].now <= calls[j].packets[k].timestamp + config.window)
  }

  predicate Closes(calls: seq<Call>) {
    exists i :: 0 <= i < |calls| && calls[i].CallMarkClosed?
  }

  /** Everything published before the pipeline was closed. */
  ghost function Published(calls: seq<Call>): seq<Item> {
    if calls == [] then []
    else
      var prior, call := calls[..|calls| - 1], calls[|calls| - 1];
      if call.CallPublish? && !Closes(prior) then Published(prior) + ItemsOf(call.template, call.packets, call.now)
      else Published(prior)
  }

  /** Every emission in the trace was caused by a tick or a drain among the calls. */
  ghost predicate Caused(trace: seq<Event>, calls: seq<Call>) {
    forall i :: 0 <= i < |trace| && trace[i].Emit? ==>
      match trace[i].mode
      case Watermark(now) => exists c :: 0 <= c < |calls| && calls[c] == CallTick(now)
      case All => exists c :: 0 <= c < |calls| && calls[c].CallDrain?
  }

  /** The trace these calls left is punctual if they were. */
  ghost predicate Explained(config: Config, trace: seq<Event>, calls: seq<Call>) {
    Caused(trace, calls) && (PunctualCalls(config, calls) ==> Punctual(config, trace))
  }

  lemma PriorPunctual(config: Config, calls: seq<Call>, call: Call)
    requires PunctualCalls(config, calls + [call])
    ensures PunctualCalls(config, calls)
  {
    var more := calls + [call];
    assert forall i :: 0 <= i < |calls| ==> more[i] == calls[i];
  }

  lemma StillCaused(trace: seq<Event>, calls: seq<Call>, call: Call)
    requires Caused(trace, calls)
    ensures Caused(trace, calls + [call])
  {
    var more := calls + [call];
    forall i | 0 <= i < |trace| && trace[i].Emit?
      ensures match trace[i].mode
              case Watermark(now) => exists c :: 0 <= c < |more| && more[c] == CallTick(now)
              case All => exists c :: 0 <= c < |more| && more[c].CallDrain?
    {
      match trace[i].mode
      case Watermark(now) =>
        var c :| 0 <= c < |calls| && calls[c] == CallTick(now);
        assert more[c] == CallTick(now);
      case All =>
        var c :| 0 <= c < |calls| && calls[c].CallDrain?;
        assert more[c].CallDrain?;
    }
  }

  /** A publish that comes in time after everything the calls before it caused. */
  lemma PublishExplained(config: Config, trace: seq<Event>, calls: seq<Call>, call: Call)
    requires Explained(config, trace, calls) && call.CallPublish?
    ensures Explained(config, trace + [Publish(call.template, call.packets, call.now)], calls + [call])
  {
    var e := Publish(call.template, call.packets, call.now);
    StillCaused(trace, calls, call);
    assert Caused(trace + [e], calls + [call]);
    if PunctualCalls(config, calls + [call]) {
      PriorPunctual(config, calls, call);
      PublishInTime(config, trace, calls, call);
    }
  }

  lemma PublishInTime(config: Config, trace: seq<Event>, calls: seq<Call>, call: Call)
    requires Caused(trace, calls) && Punctual(config, trace) && call.CallPublish? && PunctualCalls(config, calls + [call])
    ensures Punctual(config, trace + [Publish(call.template, call.packets, call.now)])
  {
    var run := trace + [Publish(call.template, call.packets, call.now)];
    OnlyTicksBefore(config, calls, call);
    assert forall i :: 0 <= i < |trace| ==> run[i] == trace[i];
  }

  lemma OnlyTicksBefore(config: Config, calls: seq<Call>, call: Call)
    requires call.CallPublish? && PunctualCalls(config, calls + [call])
    ensures forall c :: 0 <= c < |calls| ==> !calls[c].CallDrain? && (calls[c].CallTick? ==> calls[c].now <= call.now)
    ensures forall k :: 0 <= k < |call.packets| ==> call.now <= call.packets[k].timestamp + config.window
  {
    var more := calls + [call];
    assert more[|calls|] == call && forall c :: 0 <= c < |calls| ==> more[c] == calls[c];
  }

  /** Anything but a publish, after which the trace is as punctual as before. */
  lemma OtherExplained(config: Config, trace: seq<Event>, events: seq<Event>, calls: seq<Call>, call: Call)
    requires Explained(config, trace, calls)
    requires forall i :: 0 <= i < |events| ==> !events[i].Publish?
    requires forall i :: 0 <= i < |events| && events[i].Emit? ==>
               match events[i].mode
               case Watermark(now) => call == CallTick(now)
               case All => call.CallDrain?
    ensures Explained(config, trace + events, calls + [call])
  {
    StillCaused(trace, calls, call);
    assert Caused(trace + events, calls + [call]) by {
      assert (calls + [call])[|calls|] == call;
    }
    if PunctualCalls(config, calls + [call]) {
      PriorPunctual(config, calls, call);
      PunctualAppend(config, trace, events);
    }
  }

  lemma PunctualAppend(config: Config, trace: seq<Event>, events: seq<Event>)
    requires Punctual(config, trace) && forall i :: 0 <= i < |events| ==> !events[i].Publish?
    ensures Punctual(config, trace + events)
  {
    var run := trace + events;
    assert forall i :: 0 <= i < |run| && run[i].Publish? ==> i < |trace| && run[i] == trace[i];
    assert forall i :: 0 <= i < |trace| ==> run[i] == trace[i];
  }

  lemma OneMore(calls: seq<Call>, call: Call)
    ensures Closes(calls + [call]) <==> Closes(calls) || call.CallMarkClosed?
    ensures Published(calls + [call]) ==
            if call.CallPublish? && !Closes(calls) then Published(calls) + ItemsOf(call.template, call.packets, call.now)
            else Published(calls)
  {
    var more := calls + [call];
    assert more[..|calls|] == calls && more[|calls|] == call;
    if Closes(calls) {
      var i :| 0 <= i < |calls| && calls[i].CallMarkClosed?;
      assert more[i].CallMarkClosed?;
    }
  }

  /** The object has been through exactly these calls. */
  ghost predicate Served(p: Pipeline, calls: seq<Call>)
    reads p, p.heap, p.heap.nodes
  {
    && p.Valid() && Explained(p.config, p.trace, calls)
    && p.accepted == Published(calls) && p.closed == Closes(calls)
  }

  method Perform(p: Pipeline, call: Call, ghost calls: seq<Call>)
    requires Served(p, calls)
    modifies p, p.heap, p.heap.nodes
    ensures Served(p, calls + [call]) && fresh(p.heap.nodes - old(p.heap.nodes))
    ensures call.CallDrain? ==> p.heap.slots == []
  {
    hide Served;
    match call
    case CallPublish(template, packets, now) => PublishTo(p, template, packets, now, calls);
    case CallTick(now) => EmitFrom(p, call, calls);
    case CallSubscribe(queueSize, lossAware) => SubscribeOrClose(p, call, calls);
    case CallRemove(id) => SubscribeOrClose(p, call, calls);
    case CallReceive(id) => ReceiveIfSubscribed(p, id, calls);
    case CallDrain => EmitFrom(p, call, calls);
    case CallMarkClosed => SubscribeOrClose(p, call, calls);
  }

  method PublishTo(p: Pipeline, template: Template, packets: seq<Packet>, now: Time, ghost calls: seq<Call>)
    requires Served(p, calls)
    modifies p, p.heap, p.heap.nodes
    ensures Served(p, calls + [CallPublish(template, packets, now)]) && fresh(p.heap.nodes - old(p.heap.nodes))
  {
    hide Explained, Published, Closes, After;
    ghost var call := CallPublish(template, packets, now);
    OneMore(calls, call);
    p.Publish(template, packets, now);
    PublishExplained(p.config, old(p.trace), calls, call);
  }

  /** A tick or a drain. */
  method EmitFrom(p: Pipeline, call: Call, ghost calls: seq<Call>)
    requires Served(p, calls) && (call.CallTick? || call.CallDrain?)
    modifies p, p.heap, p.heap.nodes
    ensures Served(p, calls + [call]) && p.heap.nodes == old(p.heap.nodes)
    ensures call.CallDrain? ==> p.heap.slots == []
  {
    hide Explained, Published, Closes, After, Flushed, Sent;
    OneMore(calls, call);
    ghost var groups;
    if call.CallTick? {
      groups := p.Tick(call.now);
    } else {
      groups := p.Drain();
    }
    OtherExplained(p.config, old(p.trace), EmitsOf(if call.CallTick? then Watermark(call.now) else All, groups), calls, call);
  }

  /** What changes only who is subscribed. */
  method SubscribeOrClose(p: Pipeline, call: Call, ghost calls: seq<Call>)
    requires Served(p, calls) && (call.CallSubscribe? || call.CallRemove? || call.CallMarkClosed?)
    modifies p
    ensures Served(p, calls + [call])
  {
    hide Explained, Published, Closes, After;
    OneMore(calls, call);
    ghost var e;
    if call.CallSubscribe? {
      e := Subscribe(call.queueSize, call.lossAware);
      var _ := p.Subscribe(call.queueSize, call.lossAware);
    } else if call.CallRemove? {
      e := Remove(call.id);
      p.RemoveSubscriber(call.id);
    } else {
      e := MarkClosed;
      p.MarkClosed();
    }
    OtherExplained(p.config, old(p.trace), [e], calls, call);
  }

  method ReceiveIfSubscribed(p: Pipeline, id: nat, ghost calls: seq<Call>)
    requires Served(p, calls)
    modifies p
    ensures Served(p, calls + [CallReceive(id)])
  {
    hide Explained, Published, Closes, After;
    ghost var call := CallReceive(id);
    OneMore(calls, call);
    ghost var before := p.trace;
    if id in p.channels {
      var _ := p.Receive(id);
    }
    assert p.trace == before + p.trace[|before|..];
    OtherExplained(p.config, before, p.trace[|before|..], calls, call);
  }

  ghost predicate InTimestampOrder(items: seq<Item>) {
    forall i, j :: 0 <= i < j < |items| ==> items[i].packet.timestamp <= items[j].packet.timestamp
  }

  /** A new pipeline put through any schedule. Nothing is lost or invented; if the schedule is punctual
      nothing is late and what comes out is in timestamp order; and once it ends with the drain, what
      came out is all that was published. */
  method Serve(config: Config, calls: seq<Call>) returns (p: Pipeline)
    requires Normalized(config)
    ensures fresh(p) && p.Valid() && p.config == config && p.accepted == Published(calls)
    ensures multiset(Published(calls)) == multiset(p.emitted) + p.heap.Contents()
    ensures PunctualCalls(config, calls) ==> p.late == 0 && InTimestampOrder(p.emitted)
    ensures calls != [] && calls[|calls| - 1].CallDrain? ==> multiset(p.emitted) == multiset(Published(calls))
  {
    hide Explained, Published, Closes, After, PunctualCalls, InTimestampOrder;
    p := new Pipeline(config);
    NothingYet(config);
    for i := 0 to |calls|
      invariant fresh(p) && fresh(p.heap) && fresh(p.heap.nodes) && p.config == config
      invariant Served(p, calls[..i])
      invariant i > 0 && calls[i - 1].CallDrain? ==> p.heap.slots == []
    {
      Perform(p, calls[i], calls[..i]);
      assert calls[..i + 1] == calls[..i] + [calls[i]];
    }
    assert calls[..|calls|] == calls;
    Outcome(p, calls);
  }

  lemma Outcome(p: Pipeline, calls: seq<Call>)
    requires Served(p, calls)
    ensures multiset(Published(calls)) == multiset(p.emitted) + p.heap.Contents()
    ensures PunctualCalls(p.config, calls) ==> p.late == 0 && InTimestampOrder(p.emitted)
    ensures p.heap.slots == [] ==> multiset(p.emitted) == multiset(Published(calls))
  {
    hide Explained, Published, Closes, After, PunctualCalls, Punctual;
    PunctualTrace(p.config, p.trace, calls);
    PipelineGuarantees(p);
  }

  lemma NothingYet(config: Config)
    ensures Explained(config, [], []) && Published([]) == [] && !Closes([])
  {
  }

  lemma PunctualTrace(config: Config, trace: seq<Event>, calls: seq<Call>)
    requires Explained(config, trace, calls)
    ensures PunctualCalls(config, calls) ==> Punctual(config, trace)
  {
  }
}
