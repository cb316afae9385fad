/** The packet pipeline of one session as a state machine: one event for every region the
    pipeline's mutex protects, with one event per emitted batch, so that readers may take
    from their queues between any two batches. The state carries the history that the
    theorems in StreamOrder and StreamDelivery speak of. */
module StreamModel {
  import opened Options
  import opened Packets

  datatype Config = Config(window: int, queueSize: int, maxPackets: int, maxBytes: int, maxDelay: int)

  ghost predicate Normalized(config: Config) {
    config.maxPackets >= 1 && config.maxBytes >= 1 && config.maxDelay >= 0 && config.queueSize >= 1
  }

  /** When packets may leave: at a tick or wake-up that read the clock at `now`, or all of them. */
  datatype Mode = Watermark(now: Time) | All

  predicate Ready(config: Config, mode: Mode, item: Item) {
    mode.All? || (item.packet.timestamp <= mode.now - config.window && item.receivedAt <= mode.now - config.maxDelay)
  }

  // ---------- Subscriber queues ----------

  datatype Cause = Overflowed | Removed | PipelineClosed

  /** `at` counts the batches the pipeline had emitted when the queue was closed. */
  datatype Ending = Ending(cause: Cause, at: nat)

  /** A subscriber's queue. `since` counts the batches emitted before it subscribed, `sentAt` says
      which emitted batch each sent one is, and `taken` how many its reader has received. */
  datatype Channel = Channel(
    capacity: nat, lossAware: bool, since: nat,
    sent: seq<Batch>, sentAt: seq<nat>, taken: nat, droppedPackets: nat, ending: Option<Ending>)
  {
    predicate Open() {
      ending.None?
    }

    function Queue(): seq<Batch>
      requires taken <= |sent|
    {
      sent[taken..]
    }

    /** The non-blocking send of batch number `index`; Go forbids it on a closed channel. */
    function Offer(batch: Batch, index: nat): Channel
      requires taken <= |sent| && Open()
    {
      if |Queue()| < capacity then
        this.(sent := sent + [batch], sentAt := sentAt + [index])
      else
        var missed := this.(droppedPackets := droppedPackets + |batch.packets|);
        if lossAware then missed.Close(Overflowed, index + 1) else missed
    }

    /** Go forbids closing a channel twice. */
    function Close(cause: Cause, at: nat): Channel
      requires Open()
    {
      this.(ending := Some(Ending(cause, at)))
    }

    function Receive(): Channel
      requires taken < |sent|
    {
      this.(taken := taken + 1)
    }
  }

  function NewChannel(config: Config, queueSize: int, lossAware: bool, since: nat): (ch: Channel)
    requires config.queueSize >= 1
    ensures ch.capacity >= 1 && ch.lossAware == lossAware && ch.since == since
    ensures if queueSize >= 1 then ch.capacity == queueSize else ch.capacity == config.queueSize
    ensures ch.Open() && ch.sent == [] && ch.taken == 0
  {
    Channel(if queueSize < 1 then config.queueSize else queueSize, lossAware, since, [], [], 0, 0, None)
  }

  ghost predicate Receivable(channels: map<nat, Channel>) {
    forall id :: id in channels ==> channels[id].taken <= |channels[id].sent|
  }

  /** What one batch does to every queue. */
  ghost function OfferAll(channels: map<nat, Channel>, batch: Batch, index: nat): map<nat, Channel>
    requires Receivable(channels)
  {
    map id | id in channels :: if channels[id].Open() then channels[id].Offer(batch, index) else channels[id]
  }

  ghost function CloseAll(channels: map<nat, Channel>, at: nat): map<nat, Channel> {
    map id | id in channels :: if channels[id].Open() then channels[id].Close(PipelineClosed, at) else channels[id]
  }

  // ---------- Batches ----------

  ghost predicate Full(config: Config, items: seq<Item>) {
    |items| >= config.maxPackets || Bytes(PacketsOf(items)) >= config.maxBytes
  }

  ghost predicate Joins(config: Config, items: seq<Item>, next: Item)
    requires items != []
  {
    && next.template == items[0].template
    && !Full(config, items)
    && Bytes(PacketsOf(items)) + next.packet.capturedLength <= config.maxBytes
  }

  /** A batch in the making: every packet after the first joined those before it. */
  ghost predicate Grown(config: Config, items: seq<Item>) {
    items != [] && forall n :: 1 <= n < |items| ==> Joins(config, items[..n], items[n])
  }

  /** `items` may leave the buffer one after the other, always the least first. */
  ghost predicate LeastFirst(buffer: multiset<Item>, items: seq<Item>) {
    && multiset(items) <= buffer
    && Ordered(items)
    && forall i, x :: 0 <= i < |items| && x in buffer - multiset(items) ==> AtMost(items[i], x)
  }

  /** What one round of emitUntil may take out of the buffer. */
  ghost predicate OneBatch(config: Config, buffer: multiset<Item>, mode: Mode, items: seq<Item>) {
    && Grown(config, items)
    && LeastFirst(buffer, items)
    && (forall i :: 0 <= i < |items| ==> Ready(config, mode, items[i]))
  }

  /** Why that round stopped where it did: no packet is held back that could have joined. */
  ghost predicate Complete(config: Config, buffer: multiset<Item>, mode: Mode, items: seq<Item>)
    requires items != []
  {
    var rest := buffer - multiset(items);
    rest == multiset{} || exists next :: LeastOf(next, rest) && !(Ready(config, mode, next) && Joins(config, items, next))
  }

  // ---------- The machine ----------

  datatype State = State(
    buffer: multiset<Item>, lastEmitted: Time, closed: bool, nextID: nat, channels: map<nat, Channel>,
    accepted: seq<Item>, emitted: seq<Item>, batches: seq<Batch>, late: nat)

  datatype Event =
    | Publish(template: Template, packets: seq<Packet>, now: Time)
    | Emit(mode: Mode, items: seq<Item>)
    | Subscribe(queueSize: int, lossAware: bool)
    | Remove(id: nat)
    | Receive(id: nat)
    | MarkClosed

  ghost const INITIAL: State := State(multiset{}, 0, false, 0, map[], [], [], [], 0)

  function ItemsOf(template: Template, packets: seq<Packet>, now: Time): (r: seq<Item>)
    ensures |r| == |packets|
    ensures forall i :: 0 <= i < |r| ==> r[i] == Item(template, packets[i], now)
  {
    seq(|packets|, i requires 0 <= i < |packets| => Item(template, packets[i], now))
  }

  predicate IsLate(packet: Packet, lastEmitted: Time) {
    lastEmitted != 0 && packet.timestamp < lastEmitted
  }

  function LateCount(packets: seq<Packet>, lastEmitted: Time): nat {
    if packets == [] then 0
    else LateCount(packets[..|packets| - 1], lastEmitted) + if IsLate(packets[|packets| - 1], lastEmitted) then 1 else 0
  }

  ghost predicate Enabled(config: Config, s: State, e: Event) {
    match e
    case Emit(mode, items) =>
      Receivable(s.channels) && OneBatch(config, s.buffer, mode, items) && Complete(config, s.buffer, mode, items)
    case Receive(id) => id in s.channels && s.channels[id].taken < |s.channels[id].sent|
    case Subscribe(_, _) => config.queueSize >= 1
    case _ => true
  }

  ghost function BatchOf(items: seq<Item>): Batch
    requires items != []
  {
    Batch(items[0].template, PacketsOf(items))
  }

  ghost function Apply(config: Config, s: State, e: Event): State
    requires Enabled(config, s, e)
  {
    match e
    case Publish(template, packets, now) =>
      if s.closed || packets == [] then s else
      var items := ItemsOf(template, packets, now);
      s.(buffer := s.buffer + multiset(items),
         accepted := s.accepted + items,
         late := s.late + LateCount(packets, s.lastEmitted))
    case Emit(_, items) =>
      s.(buffer := s.buffer - multiset(items),
         lastEmitted := items[|items| - 1].packet.timestamp,
         emitted := s.emitted + items,
         batches := s.batches + [BatchOf(items)],
         channels := OfferAll(s.channels, BatchOf(items), |s.batches|))
    case Subscribe(queueSize, lossAware) =>
      if s.closed then s else
      s.(nextID := s.nextID + 1,
         channels := s.channels[s.nextID := NewChannel(config, queueSize, lossAware, |s.batches|)])
    case Remove(id) =>
      if id in s.channels && s.channels[id].Open()
      then s.(channels := s.channels[id := s.channels[id].Close(Removed, |s.batches|)])
      else s
    case Receive(id) => s.(channels := s.channels[id := s.channels[id].Receive()])
    case MarkClosed =>
      if s.closed then s else s.(closed := true, channels := CloseAll(s.channels, |s.batches|))
  }

  /** The state after a whole run, or None if some event could not happen. */
  ghost function After(config: Config, run: seq<Event>): Option<State> {
    if run == [] then Some(INITIAL)
    else
      var prior := After(config, run[..|run| - 1]);
      var e := run[|run| - 1];
      if prior.Some? && Enabled(config, prior.value, e) then Some(Apply(config, prior.value, e)) else None
  }

  lemma AfterExtended(config: Config, run: seq<Event>, e: Event)
    requires After(config, run).Some? && Enabled(config, After(config, run).value, e)
    ensures After(config, run + [e]) == Some(Apply(config, After(config, run).value, e))
  {
    assert (run + [e])[..|run|] == run;
  }
}
