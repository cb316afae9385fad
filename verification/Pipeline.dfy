/** The pipeline object itself. Each method is one region under the pipeline's mutex; `trace` records
    the events it performed, and the object's state is always the machine's state after that trace,
    so every theorem about runs holds of every object. */
module Pipelines {
  import opened Options
  import opened Packets
  import opened PacketHeaps
  import opened StreamModel
  import Regroup
  import StreamOrder
  import StreamDelivery

  /** The limits as NewServiceWithRebatch and OpenSession correct them. */
  function Normalize(window: int, queueSize: int, maxPackets: int, maxBytes: int, maxDelay: int): (config: Config)
    ensures Normalized(config) && config.window == window
    ensures maxPackets >= 1 ==> config.maxPackets == maxPackets
    ensures maxBytes >= 1 ==> config.maxBytes == maxBytes
    ensures maxDelay >= 0 ==> config.maxDelay == maxDelay
    ensures queueSize >= 1 ==> config.queueSize == queueSize
    ensures config.maxPackets <= Larger(1, maxPackets) && config.maxBytes <= Larger(1, maxBytes)
    ensures config.queueSize <= Larger(1, queueSize) && config.maxDelay <= Larger(0, maxDelay)
  {
    Config(window, Larger(1, queueSize), Larger(1, maxPackets), Larger(1, maxBytes), Larger(0, maxDelay))
  }

  function Larger(a: int, b: int): int {
    if a < b then b else a
  }

  lemma TakeOne(before: multiset<Item>, items: seq<Item>, item: Item)
    requires LeastFirst(before, items) && LeastOf(item, before - multiset(items))
    ensures LeastFirst(before, items + [item])
    ensures before - multiset(items) - multiset{item} == before - multiset(items + [item])
  {
    var rest := before - multiset(items);
    assert multiset(items + [item]) == multiset(items) + multiset{item};
    assert rest - multiset{item} == before - multiset(items + [item]);
    forall x | x in before - multiset(items + [item]) ensures x in rest {
    }
  }

  lemma GrowOne(config: Config, items: seq<Item>, item: Item)
    requires items == [] || (Grown(config, items) && Joins(config, items, item))
    ensures Grown(config, items + [item])
    ensures PacketsOf(items + [item]) == PacketsOf(items) + [item.packet]
    ensures Bytes(PacketsOf(items) + [item.packet]) == Bytes(PacketsOf(items)) + item.packet.capturedLength
  {
    var more := items + [item];
    forall n | 1 <= n < |more| ensures Joins(config, more[..n], more[n]) {
      if n < |items| {
        assert more[..n] == items[..n];
      } else {
        assert more[..n] == items;
      }
    }
    assert (PacketsOf(items) + [item.packet])[..|items|] == PacketsOf(items);
  }

  lemma NoneLate(last: Time)
    ensures LateCount([], last) == 0
  {
  }

  lemma LatePush(packets: seq<Packet>, i: nat, last: Time)
    requires i < |packets|
    ensures LateCount(packets[..i + 1], last) == LateCount(packets[..i], last) + if IsLate(packets[i], last) then 1 else 0
  {
    assert packets[..i + 1][..i] == packets[..i];
  }

  lemma ItemsPush(items: seq<Item>, i: nat)
    requires i < |items|
    ensures multiset(items[..i + 1]) == multiset(items[..i]) + multiset{items[i]}
  {
    assert items[..i + 1] == items[..i] + [items[i]];
  }

  /** Part-way through a fan-out: the queues still pending are as before, the others as they will be. */
  ghost predicate Partly(now: map<nat, Channel>, before: map<nat, Channel>, goal: map<nat, Channel>, pending: set<nat>) {
    && now.Keys == before.Keys == goal.Keys
    && forall i :: i in now ==> now[i] == if i in pending then before[i] else goal[i]
  }

  lemma PartlyStep(now: map<nat, Channel>, before: map<nat, Channel>, goal: map<nat, Channel>, pending: set<nat>, id: nat)
    requires Partly(now, before, goal, pending) && id in pending && id in before
    ensures id in now && now[id] == before[id] && Partly(now[id := goal[id]], before, goal, pending - {id})
  {
  }

  lemma PartlyDone(now: map<nat, Channel>, before: map<nat, Channel>, goal: map<nat, Channel>)
    requires Partly(now, before, goal, {})
    ensures now == goal
  {
  }

  /** What the inner loop has taken so far, and what it left. */
  ghost predicate Gathered(config: Config, mode: Mode, before: multiset<Item>, items: seq<Item>, rest: multiset<Item>) {
    && LeastFirst(before, items)
    && rest == before - multiset(items)
    && (forall i :: 0 <= i < |items| ==> Ready(config, mode, items[i]))
    && (items != [] ==> Grown(config, items))
  }

  lemma GatherOne(config: Config, mode: Mode, before: multiset<Item>, items: seq<Item>, rest: multiset<Item>, item: Item)
    requires Gathered(config, mode, before, items, rest) && LeastOf(item, rest) && Ready(config, mode, item)
    requires items == [] || Joins(config, items, item)
    ensures Gathered(config, mode, before, items + [item], rest - multiset{item})
    ensures PacketsOf(items + [item]) == PacketsOf(items) + [item.packet]
    ensures Bytes(PacketsOf(items) + [item.packet]) == Bytes(PacketsOf(items)) + item.packet.capturedLength
  {
    hide LeastFirst, LeastOf, Grown, Joins, Ready;
    TakeOne(before, items, item);
    GrowOne(config, items, item);
  }

  /** The loop has reason to stop at this root. */
  ghost predicate StopsAt(config: Config, mode: Mode, items: seq<Item>, slots: seq<PacketItem>) {
    items != [] && (slots == [] || !(Ready(config, mode, slots[0].item) && Joins(config, items, slots[0].item)))
  }

  lemma GatherDone(config: Config, mode: Mode, before: multiset<Item>, items: seq<Item>, slots: seq<PacketItem>)
    requires Gathered(config, mode, before, items, multiset(Items(slots))) && StopsAt(config, mode, items, slots)
    requires IsHeap(Items(slots))
    ensures OneBatch(config, before, mode, items) && Complete(config, before, mode, items)
    ensures multiset(Items(slots)) == before - multiset(items)
  {
    if slots != [] {
      RootIsLeast(Items(slots));
    } else {
      assert Items(slots) == [];
    }
  }

  lemma LeastFirstAppend(before: multiset<Item>, a: seq<Item>, b: seq<Item>)
    requires LeastFirst(before, a) && LeastFirst(before - multiset(a), b)
    ensures LeastFirst(before, a + b) && before - multiset(a) - multiset(b) == before - multiset(a + b)
  {
    var rest := before - multiset(a);
    assert multiset(a + b) == multiset(a) + multiset(b);
    assert rest - multiset(b) == before - multiset(a + b);
    forall i, x | 0 <= i < |a| && x in multiset(b) ensures AtMost(a[i], x) {
      assert x in rest;
    }
    Regroup.OrderedAppend(a, b);
    forall x | x in before - multiset(a + b) ensures x in rest {
    }
  }

  /** The events of one call of emitUntil: one for each batch. */
  ghost function EmitsOf(mode: Mode, groups: seq<seq<Item>>): (r: seq<Event>)
    ensures |r| == |groups|
    ensures forall k :: 0 <= k < |r| ==> r[k] == Emit(mode, groups[k])
  {
    seq(|groups|, k requires 0 <= k < |groups| => Emit(mode, groups[k]))
  }

  /** The batches sent since `before` are those of the groups, one for each. */
  ghost predicate Sent(before: seq<Batch>, now: seq<Batch>, groups: seq<seq<Item>>) {
    && before <= now && |now| == |before| + |groups|
    && forall k :: 0 <= k < |groups| ==> groups[k] != [] && now[|before| + k] == BatchOf(groups[k])
  }

  lemma SentOne(before: seq<Batch>, now: seq<Batch>, groups: seq<seq<Item>>, items: seq<Item>)
    requires Sent(before, now, groups) && items != []
    ensures Sent(before, now + [BatchOf(items)], groups + [items])
  {
  }

  /** What the outer loop has emitted so far; `slots` is what it left in the heap. */
  ghost predicate Flushing(config: Config, mode: Mode, before: multiset<Item>, groups: seq<seq<Item>>, slots: seq<PacketItem>) {
    var out := Regroup.Concat(groups);
    && LeastFirst(before, out)
    && multiset(Items(slots)) == before - multiset(out)
    && (forall i :: 0 <= i < |out| ==> Ready(config, mode, out[i]))
    && Regroup.Greedy(config, groups)
    && (groups != [] && slots != [] && Ready(config, mode, slots[0].item) ==>
          !Joins(config, groups[|groups| - 1], slots[0].item))
  }

  lemma GreedyPush(config: Config, groups: seq<seq<Item>>, items: seq<Item>)
    requires Regroup.Greedy(config, groups) && Grown(config, items)
    requires groups != [] ==> !Joins(config, groups[|groups| - 1], items[0])
    ensures Regroup.Greedy(config, groups + [items])
  {
    assert items != [] && forall k :: 0 <= k < |groups| ==> groups[k] != [];
    hide Joins, Grown;
    var more := groups + [items];
    assert forall k :: 0 <= k < |groups| ==> more[k] == groups[k];
    assert Grown(config, more[|groups|]);
    forall k | 0 <= k < |more| - 1 ensures !Joins(config, more[k], more[k + 1][0]) {
      if k < |groups| - 1 {
        assert !Joins(config, groups[k], groups[k + 1][0]);
      }
    }
  }

  lemma FlushStart(config: Config, mode: Mode, slots: seq<PacketItem>)
    ensures Flushing(config, mode, multiset(Items(slots)), [], slots)
  {
  }

  lemma FlushOne(config: Config, mode: Mode, before: multiset<Item>, groups: seq<seq<Item>>, slots: seq<PacketItem>,
                 items: seq<Item>, slots': seq<PacketItem>)
    requires Flushing(config, mode, before, groups, slots) && slots != [] && Ready(config, mode, slots[0].item)
    requires Gathered(config, mode, multiset(Items(slots)), items, multiset(Items(slots')))
    requires items != [] && items[0] == slots[0].item && StopsAt(config, mode, items, slots')
    ensures Flushing(config, mode, before, groups + [items], slots')
  {
    hide LeastFirst, Joins, Grown;
    var out := Regroup.Concat(groups);
    Regroup.ConcatPush(groups, items);
    assert LeastFirst(before, out + items) && multiset(Items(slots')) == before - multiset(out + items) by {
      LeastFirstAppend(before, out, items);
    }
    assert Regroup.Greedy(config, groups + [items]) by {
      GreedyPush(config, groups, items);
    }
  }

  /** One whole call of emitUntil: sort, take while ready, and cut greedily into batches. */
  ghost predicate Flushed(config: Config, mode: Mode, before: multiset<Item>, groups: seq<seq<Item>>, after: multiset<Item>) {
    var out := Regroup.Concat(groups);
    && Regroup.SortThenTake(config, mode, before, out, after)
    && groups == Regroup.Groups(config, out)
    && (mode.All? ==> after == multiset{})
  }

  /** Why this much left, and in these batches. */
  ghost predicate Explained(config: Config, mode: Mode, groups: seq<seq<Item>>, slots: seq<PacketItem>) {
    var out := Regroup.Concat(groups);
    && (mode.Watermark? ==> forall i :: 0 <= i < |out| ==> StreamOrder.BothPassed(config, mode.now, out[i]))
    && (slots != [] ==> mode.Watermark? && !StreamOrder.BothPassed(config, mode.now, slots[0].item))
    && (forall k :: 0 <= k < |groups| ==> groups[k] != [])
    && (forall k :: 0 <= k < |groups| - 1 ==> StreamOrder.Ends(config, mode, groups[k], groups[k + 1][0]))
  }

  lemma FlushExplained(config: Config, mode: Mode, before: multiset<Item>, groups: seq<seq<Item>>, slots: seq<PacketItem>)
    requires Flushing(config, mode, before, groups, slots) && (slots == [] || !Ready(config, mode, slots[0].item))
    ensures Explained(config, mode, groups, slots)
  {
    var out := Regroup.Concat(groups);
    assert forall k :: 0 <= k < |groups| ==> groups[k] != [];
    hide LeastFirst, Grown, Joins, Ready;
    forall i | 0 <= i < |out| ensures mode.All? || StreamOrder.BothPassed(config, mode.now, out[i]) {
      StreamOrder.ReadyIff(config, mode, out[i]);
    }
    if slots != [] {
      StreamOrder.ReadyIff(config, mode, slots[0].item);
    }
    forall k | 0 <= k < |groups| - 1 ensures StreamOrder.Ends(config, mode, groups[k], groups[k + 1][0]) {
      StreamOrder.EndsIff(config, mode, groups[k], groups[k + 1][0]);
    }
  }

  lemma FlushDone(config: Config, mode: Mode, before: multiset<Item>, groups: seq<seq<Item>>, slots: seq<PacketItem>)
    requires Flushing(config, mode, before, groups, slots) && IsHeap(Items(slots))
    requires slots == [] || !Ready(config, mode, slots[0].item)
    ensures Flushed(config, mode, before, groups, multiset(Items(slots)))
  {
    if slots != [] {
      RootIsLeast(Items(slots));
    }
    Regroup.PopsAreSortThenTake(config, mode, before, Regroup.Concat(groups), Items(slots));
    Regroup.GreedyIsUnique(config, groups);
  }

  class Pipeline {
    const config: Config
    const heap: PacketHeap
    var channels: map<nat, Channel>
    var subscribers: set<nat>
    var nextID: nat
    var lastEmitted: Time
    var closed: bool
    var late: nat
    var batches: seq<Batch>  // every batch emitted so far: history that no decision depends on
    ghost var accepted: seq<Item>
    ghost var emitted: seq<Item>
    ghost var trace: seq<Event>

    ghost function Abstract(): State
      reads this, heap
    {
      State(heap.Contents(), lastEmitted, closed, nextID, channels, accepted, emitted, batches, late)
    }

    /** The live subscribers are those whose queue is open. */
    ghost predicate Wired()
      reads this`channels, this`subscribers, this`nextID
    {
      && Receivable(channels)
      && (forall id :: id in channels ==> id < nextID)
      && (forall id :: id in subscribers <==> id in channels && channels[id].Open())
    }

    ghost predicate Sound()
      reads this, heap, heap.nodes
    {
      Normalized(config) && heap.Valid() && Wired()
    }

    ghost predicate Valid()
      reads this, heap, heap.nodes
    {
      Sound() && After(config, trace) == Some(Abstract())
    }

    /** From state `before` this object has just performed event e. */
    ghost predicate Performed(before: State, e: Event)
      reads this, heap, heap.nodes
    {
      Sound() && Enabled(config, before, e) && Abstract() == Apply(config, before, e)
    }

    constructor (config: Config)
      requires Normalized(config)
      ensures Valid() && this.config == config && trace == [] && accepted == [] && !closed
      ensures fresh(heap) && heap.nodes == {}
    {
      this.config := config;
      heap := new PacketHeap();
      channels, subscribers, nextID, lastEmitted, closed, late := map[], {}, 0, 0, false, 0;
      accepted, emitted, batches, trace := [], [], [], [];
    }

    /** Makes the ghost trace say that event e has happened. */
    ghost method Record(e: Event, before: State)
      requires After(config, trace) == Some(before) && Performed(before, e)
      modifies this`trace
      ensures trace == old(trace) + [e] && Valid()
    {
      hide Enabled, Apply, IsHeap;
      AfterExtended(config, trace, e);
      trace := trace + [e];
    }

    method Publish(template: Template, packets: seq<Packet>, now: Time)
      requires Valid()
      modifies this`late, this`accepted, this`trace, heap, heap.nodes
      ensures Valid() && fresh(heap.nodes - old(heap.nodes))
      ensures trace == old(trace) + [StreamModel.Publish(template, packets, now)]
      ensures accepted == if closed then old(accepted) else old(accepted) + ItemsOf(template, packets, now)
    {
      ghost var before := Abstract();
      Buffer(template, packets, now);
      Record(StreamModel.Publish(template, packets, now), before);
    }

    method Buffer(template: Template, packets: seq<Packet>, now: Time)
      requires Sound()
      modifies this`late, this`accepted, heap, heap.nodes
      ensures Performed(old(Abstract()), StreamModel.Publish(template, packets, now))
      ensures fresh(heap.nodes - old(heap.nodes))
      ensures accepted == if closed then old(accepted) else old(accepted) + ItemsOf(template, packets, now)
    {
      if !closed && packets != [] {
        PushAll(template, packets, now);
      }
    }

    method PushAll(template: Template, packets: seq<Packet>, now: Time)
      requires heap.Valid()
      modifies this`late, this`accepted, heap, heap.nodes
      ensures heap.Valid() && fresh(heap.nodes - old(heap.nodes))
      ensures late == old(late) + LateCount(packets, lastEmitted)
      ensures accepted == old(accepted) + ItemsOf(template, packets, now)
      ensures heap.Contents() == old(heap.Contents()) + multiset(ItemsOf(template, packets, now))
    {
      hide IsHeap, LateCount, IsLate;
      ghost var items := ItemsOf(template, packets, now);
      NoneLate(lastEmitted);
      for i := 0 to |packets|
        invariant heap.Valid() && fresh(heap.nodes - old(heap.nodes))
        invariant late == old(late) + LateCount(packets[..i], lastEmitted)
        invariant heap.Contents() == old(heap.Contents()) + multiset(items[..i])
        invariant accepted == old(accepted)
      {
        LatePush(packets, i, lastEmitted);
        ItemsPush(items, i);
        PushOne(template, packets[i], now);
      }
      assert packets[..|packets|] == packets && items[..|packets|] == items;
      accepted := accepted + items;
    }

    method PushOne(template: Template, packet: Packet, now: Time)
      requires heap.Valid()
      modifies this`late, heap, heap.nodes
      ensures heap.Valid() && fresh(heap.nodes - old(heap.nodes))
      ensures late == old(late) + if IsLate(packet, lastEmitted) then 1 else 0
      ensures heap.Contents() == old(heap.Contents()) + multiset{Item(template, packet, now)}
    {
      hide IsHeap;
      if lastEmitted != 0 && packet.timestamp < lastEmitted {
        late := late + 1;
      }
      heap.Push(template, packet, now);
    }

    method Subscribe(queueSize: int, lossAware: bool) returns (r: Option<nat>)
      requires Valid()
      modifies this`channels, this`subscribers, this`nextID, this`trace
      ensures Valid() && trace == old(trace) + [StreamModel.Subscribe(queueSize, lossAware)]
      ensures r == if closed then None else Some(old(nextID))
    {
      ghost var before := Abstract();
      r := AddSubscriber(queueSize, lossAware);
      Record(StreamModel.Subscribe(queueSize, lossAware), before);
    }

    method AddSubscriber(queueSize: int, lossAware: bool) returns (r: Option<nat>)
      requires Sound()
      modifies this`channels, this`subscribers, this`nextID
      ensures Performed(old(Abstract()), StreamModel.Subscribe(queueSize, lossAware))
      ensures r == if closed then None else Some(old(nextID))
    {
      if closed {
        return None;
      }
      var id := nextID;
      nextID := nextID + 1;
      subscribers := subscribers + {id};
      channels := channels[id := NewChannel(config, queueSize, lossAware, |batches|)];
      r := Some(id);
    }

    method RemoveSubscriber(id: nat)
      requires Valid()
      modifies this`channels, this`subscribers, this`trace
      ensures Valid() && trace == old(trace) + [Remove(id)] && id !in subscribers
    {
      ghost var before := Abstract();
      DropSubscriber(id);
      Record(Remove(id), before);
    }

    method DropSubscriber(id: nat)
      requires Sound()
      modifies this`channels, this`subscribers
      ensures Performed(old(Abstract()), Remove(id)) && id !in subscribers
    {
      hide IsHeap;
      if id in subscribers {
        subscribers := subscribers - {id};
        channels := channels[id := channels[id].Close(Removed, |batches|)];
      }
    }

    /** A reader takes the next batch from its queue, if there is one. */
    method Receive(id: nat) returns (r: Option<Batch>)
      requires Valid() && id in channels
      modifies this`channels, this`trace
      ensures Valid()
      ensures if old(channels[id].Queue()) == [] then r.None? && trace == old(trace)
              else r == Some(old(channels[id].Queue())[0]) && trace == old(trace) + [StreamModel.Receive(id)]
    {
      var ch := channels[id];
      if ch.taken == |ch.sent| {
        return None;
      }
      ghost var before := Abstract();
      r := Some(ch.sent[ch.taken]);
      TakeFromQueue(id);
      Record(StreamModel.Receive(id), before);
    }

    method TakeFromQueue(id: nat)
      requires Sound() && id in channels && channels[id].taken < |channels[id].sent|
      modifies this`channels
      ensures Performed(old(Abstract()), StreamModel.Receive(id))
    {
      channels := channels[id := channels[id].Receive()];
    }

    /** The second half of close: everything after the drain. */
    method MarkClosed()
      requires Valid()
      modifies this`channels, this`subscribers, this`closed, this`trace
      ensures Valid() && trace == old(trace) + [StreamModel.MarkClosed]
      ensures closed && (!old(closed) ==> subscribers == {})
    {
      ghost var before := Abstract();
      if !closed {
        closed := true;
        CloseSubscribers();
      }
      Record(StreamModel.MarkClosed, before);
    }

    method CloseSubscribers()
      requires Wired()
      modifies this`channels, this`subscribers
      ensures Wired() && subscribers == {} && channels == CloseAll(old(channels), |batches|)
    {
      ghost var goal := CloseAll(channels, |batches|);
      while subscribers != {}
        invariant Wired() && channels.Keys == old(channels.Keys) && subscribers <= old(subscribers)
        invariant forall i :: i in channels ==> channels[i] == if i in subscribers then old(channels)[i] else goal[i]
        decreases |subscribers|
      {
        var id :| id in subscribers;
        subscribers := subscribers - {id};
        channels := channels[id := channels[id].Close(PipelineClosed, |batches|)];
      }
      assert channels == goal;
    }

    /** Offers one batch to every live subscriber. */
    method FanOut(batch: Batch)
      requires Wired()
      modifies this`channels, this`subscribers
      ensures Wired() && channels == OfferAll(old(channels), batch, |batches|)
    {
      ghost var goal := OfferAll(channels, batch, |batches|);
      var pending := subscribers;
      assert Partly(channels, channels, goal, pending);
      assert forall i :: i in subscribers ==> i in channels && channels[i].Open() && goal[i] == channels[i].Offer(batch, |batches|);
      assert Receivable(goal);
      hide OfferAll, Partly;
      while pending != {}
        invariant pending <= old(subscribers) && Partly(channels, old(channels), goal, pending)
        invariant forall i :: i in subscribers <==> i in channels && channels[i].Open()
        decreases |pending|
      {
        var id :| id in pending;
        PartlyStep(channels, old(channels), goal, pending, id);
        pending := pending - {id};
        OfferTo(id, batch);
      }
      PartlyDone(channels, old(channels), goal);
    }

    /** The non-blocking send to one subscriber, who leaves if that closed its queue. */
    method OfferTo(id: nat, batch: Batch)
      requires id in channels && channels[id].taken <= |channels[id].sent| && channels[id].Open()
      requires forall i :: i in subscribers <==> i in channels && channels[i].Open()
      modifies this`channels, this`subscribers
      ensures channels == old(channels)[id := old(channels)[id].Offer(batch, |batches|)]
      ensures forall i :: i in subscribers <==> i in channels && channels[i].Open()
    {
      var offered := channels[id].Offer(batch, |batches|);
      channels := channels[id := offered];
      if !offered.Open() {
        subscribers := subscribers - {id};
      }
    }

    /** Moves the root of the heap into the batch under construction. */
    method TakeRoot(mode: Mode, ghost before: multiset<Item>, ghost items: seq<Item>, packets: seq<Packet>, bytes: nat)
      returns (packets': seq<Packet>, bytes': nat)
      requires heap.Valid() && heap.slots != [] && Ready(config, mode, heap.slots[0].item)
      requires items == [] || Joins(config, items, heap.slots[0].item)
      requires Gathered(config, mode, before, items, heap.Contents())
      requires packets == PacketsOf(items) && bytes == Bytes(packets)
      modifies this`lastEmitted, heap`slots, heap.nodes
      ensures heap.Valid() && |heap.slots| == old(|heap.slots|) - 1
      ensures var more := items + [old(heap.slots[0].item)];
              Gathered(config, mode, before, more, heap.Contents())
              && packets' == PacketsOf(more) && bytes' == Bytes(packets')
      ensures lastEmitted == old(heap.slots[0].item).packet.timestamp
    {
      hide Gathered, LeastOf, Joins, Ready, IsHeap;
      var item := heap.slots[0].item;
      RootIsLeast(Items(heap.slots));
      GatherOne(config, mode, before, items, heap.Contents(), item);
      var popped := heap.Pop();
      packets' := packets + [item.packet];
      bytes' := bytes + item.packet.capturedLength;
      lastEmitted := item.packet.timestamp;
    }

    /** Where the inner loop stands: `building` holds the batch so far, and `open` is lost once the
        batch is full or the root may not join it. */
    ghost predicate Building(mode: Mode, before: multiset<Item>, count: nat, items: seq<Item>, building: Batch, bytes: nat, open: bool)
      reads this, heap, heap.nodes
    {
      && heap.Valid() && |heap.slots| + |items| == count
      && Gathered(config, mode, before, items, heap.Contents())
      && building.packets == PacketsOf(items) && bytes == Bytes(building.packets)
      && (items != [] ==> items[0].template == building.template && lastEmitted == items[|items| - 1].packet.timestamp)
      && (if open then heap.slots != [] && (items != [] ==> !Full(config, items)) else StopsAt(config, mode, items, heap.slots))
    }

    /** One turn of the inner loop. */
    method Advance(mode: Mode, ghost before: multiset<Item>, ghost count: nat, ghost items: seq<Item>, building: Batch, bytes: nat)
      returns (building': Batch, bytes': nat, open: bool, ghost items': seq<Item>)
      requires Building(mode, before, count, items, building, bytes, true)
      requires items == [] ==> Ready(config, mode, heap.slots[0].item) && building.template == heap.slots[0].item.template
      modifies this`lastEmitted, heap`slots, heap.nodes
      ensures Building(mode, before, count, items', building', bytes', open)
      ensures items' != [] && building'.template == building.template
      ensures items' == items || items' == items + [old(heap.slots[0].item)]
      ensures open ==> |heap.slots| < old(|heap.slots|)
    {
      hide Gathered, IsHeap;
      var item := heap.slots[0].item;
      var many := |building.packets|;
      if || !Ready(config, mode, item)
         || building.template != item.template
         || (many > 0 && (many >= config.maxPackets || bytes + item.packet.capturedLength > config.maxBytes))
      {
        return building, bytes, false, items;
      }
      var packets;
      packets, bytes' := TakeRoot(mode, before, items, building.packets, bytes);
      building', items' := building.(packets := packets), items + [item];
      open := |packets| < config.maxPackets && bytes' < config.maxBytes && heap.slots != [];
    }

    /** The inner loop of emitUntil: takes one batch out of the buffer. */
    method GatherBatch(mode: Mode) returns (batch: Batch, bytes: nat, ghost items: seq<Item>)
      requires heap.Valid() && heap.slots != [] && Ready(config, mode, heap.slots[0].item)
      modifies this`lastEmitted, heap`slots, heap.nodes
      ensures Building(mode, old(heap.Contents()), old(|heap.slots|), items, batch, bytes, false)
      ensures items != [] && items[0] == old(heap.slots[0].item)
    {
      ghost var before, count := heap.Contents(), |heap.slots|;
      ghost var first := heap.slots[0].item;
      batch, items, bytes := Batch(heap.slots[0].item.template, []), [], 0;
      var open := true;
      while open
        invariant Building(mode, before, count, items, batch, bytes, open)
        invariant if items == [] then open && heap.slots[0].item == first else items[0] == first
        invariant batch.template == first.template
        decreases open, |heap.slots|
      {
        batch, bytes, open, items := Advance(mode, before, count, items, batch, bytes);
      }
    }

    /** Fans a gathered batch out and enters it in the history. */
    method Deliver(batch: Batch, mode: Mode, ghost items: seq<Item>, ghost before: State)
      requires Sound() && OneBatch(config, before.buffer, mode, items) && Complete(config, before.buffer, mode, items)
      requires batch == BatchOf(items) && lastEmitted == items[|items| - 1].packet.timestamp
      requires Abstract() == before.(buffer := before.buffer - multiset(items), lastEmitted := lastEmitted)
      modifies this`channels, this`subscribers, this`emitted, this`batches
      ensures Performed(before, Emit(mode, items)) && emitted == old(emitted) + items
      ensures batches == old(batches) + [batch]
    {
      hide OneBatch, Complete, OfferAll, IsHeap, Normalized;
      assert Receivable(channels);
      hide Receivable, Wired;
      FanOut(batch);
      batches, emitted := batches + [batch], emitted + items;
    }

    /** One round of the outer loop of emitUntil. */
    method EmitBatch(mode: Mode) returns (ghost items: seq<Item>)
      requires Sound() && heap.slots != [] && Ready(config, mode, heap.slots[0].item)
      modifies this`lastEmitted, this`channels, this`subscribers, this`emitted, this`batches, heap`slots, heap.nodes
      ensures Performed(old(Abstract()), Emit(mode, items)) && emitted == old(emitted) + items
      ensures |heap.slots| < old(|heap.slots|) && items != [] && items[0] == old(heap.slots[0].item)
      ensures batches == old(batches) + [BatchOf(items)]
      ensures Gathered(config, mode, old(heap.Contents()), items, heap.Contents()) && StopsAt(config, mode, items, heap.slots)
    {
      hide Gathered, StopsAt, OneBatch, Complete, Performed;
      var batch, _, taken := GatherBatch(mode);
      items := taken;
      GatherDone(config, mode, old(heap.Contents()), items, heap.slots);
      Deliver(batch, mode, items, old(Abstract()));
    }

    /** Where the outer loop stands: it began at state `start` after events `past`. */
    ghost predicate Emitting(mode: Mode, start: State, past: seq<Event>, groups: seq<seq<Item>>)
      reads this, heap, heap.nodes
    {
      && Valid() && Flushing(config, mode, start.buffer, groups, heap.slots)
      && emitted == start.emitted + Regroup.Concat(groups)
      && Sent(start.batches, batches, groups)
      && trace == past + EmitsOf(mode, groups)
    }

    /** One round of the outer loop, entered in the trace. */
    method EmitNext(mode: Mode, ghost start: State, ghost past: seq<Event>, ghost groups: seq<seq<Item>>)
      returns (ghost items: seq<Item>)
      requires Emitting(mode, start, past, groups) && heap.slots != [] && Ready(config, mode, heap.slots[0].item)
      modifies this`lastEmitted, this`channels, this`subscribers, this`emitted, this`batches, this`trace, heap`slots, heap.nodes
      ensures Emitting(mode, start, past, groups + [items]) && |heap.slots| < old(|heap.slots|)
    {
      hide Flushing, Gathered, StopsAt, After, Performed, Sound, Sent;
      items := EmitBatch(mode);
      Record(Emit(mode, items), old(Abstract()));
      SentOne(start.batches, old(batches), groups, items);
      FlushOne(config, mode, start.buffer, groups, old(heap.slots), items, heap.slots);
      Regroup.ConcatPush(groups, items);
    }

    /** emitUntil: everything that is ready leaves the buffer, in order and in batches. */
    method EmitUntil(mode: Mode) returns (ghost groups: seq<seq<Item>>)
      requires Valid()
      modifies this`lastEmitted, this`channels, this`subscribers, this`emitted, this`batches, this`trace, heap`slots, heap.nodes
      ensures Valid() && Flushed(config, mode, old(heap.Contents()), groups, heap.Contents())
      ensures emitted == old(emitted) + Regroup.Concat(groups) && Sent(old(batches), batches, groups)
      ensures trace == old(trace) + EmitsOf(mode, groups) && Explained(config, mode, groups, heap.slots)
    {
      hide Flushing, Flushed, Explained, After, IsHeap;
      ghost var start, past := Abstract(), trace;
      groups := [];
      FlushStart(config, mode, heap.slots);
      while heap.slots != [] && Ready(config, mode, heap.slots[0].item)
        invariant Emitting(mode, start, past, groups)
        decreases |heap.slots|
      {
        ghost var items := EmitNext(mode, start, past, groups);
        groups := groups + [items];
      }
      FlushDone(config, mode, start.buffer, groups, heap.slots);
      FlushExplained(config, mode, start.buffer, groups, heap.slots);
    }

    /** A tick or wake-up of the pipeline's run loop. */
    method Tick(now: Time) returns (ghost groups: seq<seq<Item>>)
      requires Valid()
      modifies this`lastEmitted, this`channels, this`subscribers, this`emitted, this`batches, this`trace, heap`slots, heap.nodes
      ensures Valid() && Flushed(config, Watermark(now), old(heap.Contents()), groups, heap.Contents())
      ensures emitted == old(emitted) + Regroup.Concat(groups) && Sent(old(batches), batches, groups)
      ensures trace == old(trace) + EmitsOf(Watermark(now), groups) && Explained(config, Watermark(now), groups, heap.slots)
      ensures forall i :: |old(emitted)| <= i < |emitted| ==>
                emitted[i].packet.timestamp + config.window <= now && emitted[i].receivedAt + config.maxDelay <= now
      ensures heap.slots != [] ==>
                heap.slots[0].item.packet.timestamp + config.window > now || heap.slots[0].item.receivedAt + config.maxDelay > now
    {
      hide After, IsHeap, Flushed, Sent, Wired;
      groups := EmitUntil(Watermark(now));
    }

    /** The first half of close. */
    method Drain() returns (ghost groups: seq<seq<Item>>)
      requires Valid()
      modifies this`lastEmitted, this`channels, this`subscribers, this`emitted, this`batches, this`trace, heap`slots, heap.nodes
      ensures Valid() && heap.slots == [] && Flushed(config, All, old(heap.Contents()), groups, multiset{})
      ensures emitted == old(emitted) + Regroup.Concat(groups) && Sent(old(batches), batches, groups)
      ensures trace == old(trace) + EmitsOf(All, groups)
    {
      hide After, IsHeap, Regroup.SortThenTake, Sent, Wired;
      groups := EmitUntil(All);
      NothingLeft(heap.slots);
    }

    /** close, when nothing is published between its two halves. */
    method Close() returns (ghost groups: seq<seq<Item>>)
      requires Valid()
      modifies this`lastEmitted, this`channels, this`subscribers, this`emitted, this`batches, this`trace, this`closed
      modifies heap`slots, heap.nodes
      ensures Valid() && closed && heap.slots == [] && Flushed(config, All, old(heap.Contents()), groups, multiset{})
      ensures emitted == old(emitted) + Regroup.Concat(groups) && Sent(old(batches), batches, groups)
      ensures trace == old(trace) + EmitsOf(All, groups) + [StreamModel.MarkClosed]
      ensures !old(closed) ==> subscribers == {}
    {
      hide After, Flushed, Sent;
      groups := Drain();
      MarkClosed();
    }
  }

  lemma NothingLeft(slots: seq<PacketItem>)
    requires multiset(Items(slots)) == multiset{}
    ensures slots == []
  {
    assert |multiset(Items(slots))| == |Items(slots)|;
  }

  /** What holds of every pipeline object, whatever was called on it in whatever order. */
  lemma PipelineGuarantees(p: Pipeline)
    requires p.Valid()
    ensures multiset(p.accepted) == multiset(p.emitted) + p.heap.Contents()
    ensures StreamOrder.Descents(p.emitted) <= p.late
    ensures StreamDelivery.Flatten(p.batches) == StreamDelivery.Labels(p.emitted)
    ensures forall id :: id in p.channels ==> StreamDelivery.ChannelOk(p.channels[id], p.batches)
    ensures StreamOrder.Punctual(p.config, p.trace) ==>
              p.late == 0 && forall i, j :: 0 <= i < j < |p.emitted| ==>
                p.emitted[i].packet.timestamp <= p.emitted[j].packet.timestamp
  {
    hide StreamOrder.Punctual;
    if StreamOrder.Punctual(p.config, p.trace) {
      StreamOrder.ReorderWindow(p.config, p.trace);
    }
    hide After, StreamOrder.DescentsPaid, StreamDelivery.ChannelOk;
    StreamOrder.Conservation(p.config, p.trace);
    StreamOrder.DescentsAtMostLate(p.config, p.trace);
    StreamDelivery.BatchesCarryEmitted(p.config, p.trace);
    StreamDelivery.Delivery(p.config, p.trace);
  }
}
