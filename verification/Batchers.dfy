/** The agent's two batchers, for every schedule of arrivals, timers, sends and cancellation. */
module Batchers {
  import opened Packets

  datatype Request = Request(maxPackets: int, maxBytes: int, snaplen: nat)

  datatype Captured = Captured(packets: seq<Packet>, bytes: nat)

  const EMPTY := Captured([], 0)

  function Laid(batches: seq<Captured>): seq<Packet> {
    if batches == [] then [] else Laid(batches[..|batches| - 1]) + batches[|batches| - 1].packets
  }

  /** What a consumer may rely on in every batch. */
  ghost predicate BatchOk(request: Request, b: Captured) {
    && b.packets != [] && b.bytes == Bytes(b.packets)
    && (|b.packets| == 1 || (|b.packets| <= request.maxPackets && b.bytes <= request.maxBytes))
  }

  ghost predicate AllOk(request: Request, batches: seq<Captured>) {
    forall k :: 0 <= k < |batches| ==> BatchOk(request, batches[k])
  }

  /** A batch still being filled may take another packet. */
  ghost predicate Filling(request: Request, b: Captured) {
    && b.bytes == Bytes(b.packets)
    && (b.packets != [] ==> BatchOk(request, b) && |b.packets| < request.maxPackets && b.bytes < request.maxBytes)
  }

  /** All packets received are in the batches sent or in the one being filled, in order. */
  ghost predicate Keeps(request: Request, batches: seq<Captured>, batch: Captured, received: seq<Packet>) {
    AllOk(request, batches) && Filling(request, batch) && Laid(batches) + batch.packets == received
  }

  /** What lets a batch be sent: it is full, the packet after it would make it too large, or the time had
      come to flush. */
  ghost predicate Reason(request: Request, b: Captured, next: seq<Packet>, timeToFlush: bool) {
    || |b.packets| >= request.maxPackets || b.bytes >= request.maxBytes
    || (next != [] && b.bytes + next[0].capturedLength > request.maxBytes)
    || timeToFlush
  }

  /** Every batch sent had a reason; `marks` are the counts of packets at which it was time to flush. */
  ghost predicate Reasons(request: Request, batches: seq<Captured>, received: seq<Packet>, marks: set<nat>) {
    forall k :: 0 <= k < |batches| ==> HadReason(request, batches, k, received, marks)
  }

  ghost predicate HadReason(request: Request, batches: seq<Captured>, k: nat, received: seq<Packet>, marks: set<nat>)
    requires k < |batches|
  {
    var n := |Laid(batches[..k + 1])|;
    n <= |received| && Reason(request, batches[k], received[n..], n in marks)
  }

  lemma ReasonsGrow(request: Request, batches: seq<Captured>, received: seq<Packet>, more: seq<Packet>, marks: set<nat>, marks': set<nat>)
    requires Reasons(request, batches, received, marks) && received <= more && marks <= marks'
    ensures Reasons(request, batches, more, marks')
  {
    forall k | 0 <= k < |batches| ensures HadReason(request, batches, k, more, marks') {
      assert HadReason(request, batches, k, received, marks);
      var n := |Laid(batches[..k + 1])|;
      hide Laid;
      assert received[n..] != [] ==> more[n..] != [] && more[n..][0] == received[n] == received[n..][0];
    }
  }

  lemma ReasonsPush(request: Request, batches: seq<Captured>, b: Captured, received: seq<Packet>, marks: set<nat>)
    requires Reasons(request, batches, received, marks) && Laid(batches) + b.packets <= received
    requires Reason(request, b, received[|Laid(batches) + b.packets|..], |Laid(batches) + b.packets| in marks)
    ensures Reasons(request, batches + [b], received, marks)
  {
    var more, n := batches + [b], |batches|;
    assert more[..n] == batches && more[..n + 1] == more;
    assert Laid(more) == Laid(batches) + b.packets;
    hide Reason, Laid;
    forall k | 0 <= k < |more| ensures HadReason(request, more, k, received, marks) {
      if k < n {
        assert more[..k + 1] == batches[..k + 1] && more[k] == batches[k];
        assert HadReason(request, batches, k, received, marks);
      } else {
        assert more[..k + 1] == more && more[k] == b;
      }
    }
  }

  lemma NoBatches(request: Request, received: seq<Packet>, marks: set<nat>)
    ensures Reasons(request, [], received, marks)
  {
  }

  /** Sends a non-empty batch, unless the context is cancelled first. */
  method Flush(request: Request, batches: seq<Captured>, batch: Captured, accepted: bool)
    returns (batches': seq<Captured>, batch': Captured, ok: bool)
    requires AllOk(request, batches) && (batch.packets != [] ==> BatchOk(request, batch)) && batch.bytes == Bytes(batch.packets)
    ensures ok == (batch.packets == [] || accepted)
    ensures ok ==> AllOk(request, batches') && batch' == EMPTY && Laid(batches') == Laid(batches) + batch.packets
    ensures ok ==> batches' == if batch.packets == [] then batches else batches + [batch]
    ensures !ok ==> batches' == batches
  {
    if batch.packets == [] {
      return batches, EMPTY, true;
    }
    if !accepted {
      return batches, batch, false;
    }
    assert (batches + [batch])[..|batches|] == batches;
    return batches + [batch], EMPTY, true;
  }

  /** Adds a packet to a batch it fits, and says whether the batch is now full. */
  method Add(request: Request, batch: Captured, packet: Packet) returns (batch': Captured, full: bool)
    requires Filling(request, batch)
    requires batch.packets != [] ==> batch.bytes + packet.capturedLength <= request.maxBytes
    ensures batch'.packets == batch.packets + [packet] && BatchOk(request, batch')
    ensures full <==> |batch'.packets| >= request.maxPackets || batch'.bytes >= request.maxBytes
    ensures !full ==> Filling(request, batch')
  {
    assert (batch.packets + [packet])[..|batch.packets|] == batch.packets;
    batch' := Captured(batch.packets + [packet], batch.bytes + packet.capturedLength);
    full := |batch'.packets| >= request.maxPackets || batch'.bytes >= request.maxBytes;
  }

  // ---------- dumpcap ----------

  /** What the select loop may see next. */
  datatype Event = Arrive(packet: Packet) | InputClosed | TimerFired | Cancelled

  function Arrived(events: seq<Event>): seq<Packet> {
    if events == [] then []
    else Arrived(events[..|events| - 1]) + if events[|events| - 1].Arrive? then [events[|events| - 1].packet] else []
  }

  /** The counts of arrivals at which the timer fired or the input ended. */
  ghost function FlushMarks(events: seq<Event>): set<nat> {
    if events == [] then {}
    else
      var front, last := events[..|events| - 1], events[|events| - 1];
      FlushMarks(front) + if last.TimerFired? || last.InputClosed? then {|Arrived(front)|} else {}
  }

  datatype End = StillRunning | Finished | Interrupted

  /** batchCapturedPackets. What has not been sent while it runs is the one batch being filled, and a
      timer leaves nothing unsent. `accepts` says which send attempts win against cancellation. */
  method BatchCapturedPackets(request: Request, events: seq<Event>, accepts: nat -> bool)
    returns (batches: seq<Captured>, unsent: Captured, end: End, seen: nat)
    ensures AllOk(request, batches) && seen <= |events|
    ensures Laid(batches) <= Arrived(events[..seen])
    ensures end == Finished ==> Laid(batches) == Arrived(events[..seen]) && seen > 0 && events[seen - 1].InputClosed?
    ensures end == StillRunning ==> seen == |events| && Keeps(request, batches, unsent, Arrived(events))
    ensures end == StillRunning && events != [] && events[|events| - 1].TimerFired? ==> unsent == EMPTY
    ensures Reasons(request, batches, Arrived(events[..seen]), FlushMarks(events[..seen]))
    ensures (forall i :: 0 <= i < |events| ==> !events[i].Cancelled?) && (forall n :: accepts(n)) ==> end != Interrupted
  {
    hide BatchOk, Filling, AllOk, Reasons, Keeps;
    batches, end, seen := [], StillRunning, 0;
    unsent := EMPTY;
    var attempts: nat := 0;
    StartEmpty(request);
    NoBatches(request, [], {});
    while seen < |events| && end == StillRunning
      invariant 0 <= seen <= |events|
      invariant AllOk(request, batches) && Laid(batches) <= Arrived(events[..seen])
      invariant Reasons(request, batches, Arrived(events[..seen]), FlushMarks(events[..seen]))
      invariant end == StillRunning ==> Keeps(request, batches, unsent, Arrived(events[..seen]))
      invariant end == Finished ==> Laid(batches) == Arrived(events[..seen]) && seen > 0 && events[seen - 1].InputClosed?
      invariant (forall i :: 0 <= i < |events| ==> !events[i].Cancelled?) && (forall n :: accepts(n)) ==> end != Interrupted
      invariant end == StillRunning && seen > 0 && events[seen - 1].TimerFired? ==> unsent == EMPTY
      decreases |events| - seen
    {
      batches, unsent, end, attempts := OnEvent(request, events, seen, batches, unsent, accepts, attempts);
      seen := seen + 1;
    }
    assert end == StillRunning ==> events[..seen] == events;
  }

  /** One turn of the select loop. */
  method OnEvent(request: Request, events: seq<Event>, seen: nat, batches: seq<Captured>, unsent: Captured,
                 accepts: nat -> bool, attempts: nat)
    returns (batches': seq<Captured>, unsent': Captured, end: End, attempts': nat)
    requires seen < |events| && AllOk(request, batches) && Keeps(request, batches, unsent, Arrived(events[..seen]))
    requires Laid(batches) <= Arrived(events[..seen])
    requires Reasons(request, batches, Arrived(events[..seen]), FlushMarks(events[..seen]))
    ensures AllOk(request, batches') && Laid(batches') <= Arrived(events[..seen + 1])
    ensures Reasons(request, batches', Arrived(events[..seen + 1]), FlushMarks(events[..seen + 1]))
    ensures end == StillRunning ==> Keeps(request, batches', unsent', Arrived(events[..seen + 1]))
    ensures end == Finished ==> Laid(batches') == Arrived(events[..seen + 1]) && events[seen].InputClosed?
    ensures !events[seen].Cancelled? && (forall n :: accepts(n)) ==> end != Interrupted
    ensures end == StillRunning && events[seen].TimerFired? ==> unsent' == EMPTY
  {
    hide BatchOk, Filling, AllOk, Reasons, Keeps, Laid;
    batches', unsent', end, attempts' := batches, unsent, StillRunning, attempts;
    ghost var received, all, marks := Arrived(events[..seen]), Arrived(events[..seen + 1]), FlushMarks(events[..seen + 1]);
    assert events[..seen + 1][..seen] == events[..seen];
    assert all == if events[seen].Arrive? then received + [events[seen].packet] else received;
    ReasonsGrow(request, batches, received, received, FlushMarks(events[..seen]), marks);
    var ok := true;
    match events[seen] {
      case InputClosed =>
        batches', unsent', ok := FlushKept(request, batches, unsent, received, accepts(attempts), marks);
        end := Finished;
      case TimerFired =>
        batches', unsent', ok := FlushKept(request, batches, unsent, received, accepts(attempts), marks);
        attempts' := attempts + 1;
      case Cancelled => ok := false;
      case Arrive(packet) =>
        batches', unsent', ok, attempts' := TakePacket(request, batches, unsent, received, packet, accepts, attempts, marks);
    }
    if !ok {
      end := Interrupted;
    }
  }

  lemma StartEmpty(request: Request)
    ensures Keeps(request, [], EMPTY, []) && Laid([]) == [] && AllOk(request, [])
  {
  }

  method FlushKept(request: Request, batches: seq<Captured>, batch: Captured, ghost received: seq<Packet>, accepted: bool,
                   ghost marks: set<nat>)
    returns (batches': seq<Captured>, batch': Captured, ok: bool)
    requires Keeps(request, batches, batch, received) && Reasons(request, batches, received, marks) && |received| in marks
    ensures Reasons(request, batches', received, marks)
    ensures AllOk(request, batches') && Laid(batches') <= received && (accepted ==> ok)
    ensures ok ==> Keeps(request, batches', batch', received) && Laid(batches') == received && batch' == EMPTY
  {
    hide Reasons;
    batches', batch', ok := Flush(request, batches, batch, accepted);
    assert Laid(batches) <= received;
    if batch.packets != [] {
      ReasonsPush(request, batches, batch, received, marks);
    }
  }

  /** One packet of either batcher: flush first if it would overflow the bytes, add it, flush if full. */
  method TakePacket(request: Request, batches: seq<Captured>, batch: Captured, ghost received: seq<Packet>, packet: Packet,
                    accepts: nat -> bool, attempts: nat, ghost marks: set<nat>)
    returns (batches': seq<Captured>, batch': Captured, ok: bool, attempts': nat)
    requires Keeps(request, batches, batch, received) && Reasons(request, batches, received, marks)
    ensures AllOk(request, batches') && Laid(batches') <= received + [packet]
    ensures ok ==> Keeps(request, batches', batch', received + [packet]) && |batch'.packets| <= |batch.packets| + 1
    ensures (forall n :: accepts(n)) ==> ok
    ensures Reasons(request, batches', received + [packet], marks)
  {
    hide BatchOk, AllOk, Laid, Reasons;
    batches', batch', ok, attempts' := batches, batch, true, attempts;
    ghost var all := received + [packet];
    ReasonsGrow(request, batches, received, all, marks, marks);
    assert Laid(batches) <= all;
    if batch.packets != [] && batch.bytes + packet.capturedLength > request.maxBytes {
      assert all[|received|..] == [packet];
      ReasonsPush(request, batches, batch, all, marks);
      batches', batch', ok := Flush(request, batches, batch, accepts(attempts'));
      attempts' := attempts' + 1;
      if !ok {
        return;
      }
    }
    batches', batch', ok, attempts' := AddAndFlush(request, batches', batch', received, packet, accepts, attempts', marks);
  }

  /** Adds a packet that fits, and flushes if that made the batch full. */
  method AddAndFlush(request: Request, batches: seq<Captured>, batch: Captured, ghost received: seq<Packet>, packet: Packet,
                     accepts: nat -> bool, attempts: nat, ghost marks: set<nat>)
    returns (batches': seq<Captured>, batch': Captured, ok: bool, attempts': nat)
    requires Keeps(request, batches, batch, received) && Reasons(request, batches, received + [packet], marks)
    requires batch.packets != [] ==> batch.bytes + packet.capturedLength <= request.maxBytes
    ensures AllOk(request, batches') && Laid(batches') <= received + [packet]
    ensures ok ==> Keeps(request, batches', batch', received + [packet]) && |batch'.packets| <= |batch.packets| + 1
    ensures (forall n :: accepts(n)) ==> ok
    ensures Reasons(request, batches', received + [packet], marks)
  {
    hide BatchOk, AllOk, Laid, Reasons;
    batches', ok, attempts' := batches, true, attempts;
    var full;
    batch', full := Add(request, batch, packet);
    assert Laid(batches) + batch'.packets == received + [packet];
    if full {
      ReasonsPush(request, batches, batch', received + [packet], marks);
      batches', batch', ok := Flush(request, batches, batch', accepts(attempts));
      attempts' := attempts + 1;
    }
  }

  // ---------- AF_PACKET ----------

  /** A frame from the ring; a negative `vlan` means the kernel stripped no tag. */
  datatype Frame = Frame(data: seq<Byte>, vlan: int, timestamp: Time, length: nat)

  /** `overdue` says whether the batch being filled has passed its delay by now. */
  datatype RingEvent = GotFrame(frame: Frame, overdue: bool) | Timeout(overdue: bool) | ReadError | ContextDone

  /** The batch in progress has reached its maximal age when this is seen. */
  predicate Overdue(event: RingEvent) {
    (event.GotFrame? || event.Timeout?) && event.overdue
  }

  predicate Tagged(frame: Frame) {
    frame.vlan >= 0 && |frame.data| >= 12
  }

  /** The frame as it was on the wire: an 802.1Q tag after the two addresses, if one was stripped. */
  function OnWire(frame: Frame): seq<Byte> {
    if Tagged(frame) then frame.data[..12] + [0x81, 0x00, frame.vlan / 256 % 256, frame.vlan % 256] + frame.data[12..]
    else frame.data
  }

  function Cut(data: seq<Byte>, snaplen: nat): seq<Byte> {
    if |data| > snaplen then data[..snaplen] else data
  }

  /** capturedPacketLength: how long the packet will be, before it is copied. */
  function CapturedPacketLength(frame: Frame, snaplen: nat): (length: nat)
    ensures length == |Cut(OnWire(frame), snaplen)|
  {
    var length := |frame.data| + if frame.vlan >= 0 && |frame.data| >= 12 then 4 else 0;
    if length > snaplen then snaplen else length
  }

  /** appendCapturedPacket: the packet is the arena's new tail, and nothing in the arena moves. */
  method AppendCapturedPacket(arena: seq<Byte>, frame: Frame, snaplen: nat) returns (arena': seq<Byte>, data: seq<Byte>)
    ensures arena' == arena + data && data == Cut(OnWire(frame), snaplen)
  {
    var start := |arena|;
    if frame.vlan >= 0 && |frame.data| >= 12 {
      arena' := arena + frame.data[..12];
      arena' := arena' + [0x81, 0x00, frame.vlan / 256 % 256, frame.vlan % 256];
      arena' := arena' + frame.data[12..];
    } else {
      arena' := arena + frame.data;
    }
    ghost var wire := OnWire(frame);
    assert arena' == arena + wire;
    hide OnWire;
    var end := |arena'|;
    if end > start + snaplen {
      end := start + snaplen;
      arena' := arena'[..end];
      assert arena' == arena + wire[..snaplen];
    }
    data := arena'[start..end];
    assert data == Cut(wire, snaplen);
  }

  /** Re-inserting the tag loses nothing: the addresses, the tag's 16 bits and the rest can all be
      read back from the packet when it is not cut. */
  lemma TagRoundTrip(frame: Frame, snaplen: nat)
    requires Tagged(frame) && frame.vlan < 65536 && |frame.data| + 4 <= snaplen
    ensures var p := Cut(OnWire(frame), snaplen);
            && |p| == |frame.data| + 4 && p[12] == 0x81 && p[13] == 0x00
            && (p[14] as int) * 256 + p[15] as int == frame.vlan && p[..12] + p[16..] == frame.data
  {
    var p := OnWire(frame);
    assert p[..12] == frame.data[..12] && p[16..] == frame.data[12..];
  }

  function PacketOf(frame: Frame, sequence: nat, snaplen: nat): Packet {
    var data := Cut(OnWire(frame), snaplen);
    Packet(frame.timestamp, sequence, |data|, data)
  }

  /** The packets of all frames so far, numbered from one. */
  function Numbered(events: seq<RingEvent>, snaplen: nat): seq<Packet> {
    if events == [] then []
    else
      var before, last := Numbered(events[..|events| - 1], snaplen), events[|events| - 1];
      before + if last.GotFrame? then [PacketOf(last.frame, |before| + 1, snaplen)] else []
  }

  /** The counts of frames at which the batch was past its age or reading ended. */
  ghost function RingMarks(events: seq<RingEvent>, snaplen: nat): set<nat> {
    if events == [] then {}
    else
      var front, last := events[..|events| - 1], events[|events| - 1];
      RingMarks(front, snaplen) + if Overdue(last) || last.ReadError? then {|Numbered(front, snaplen)|} else {}
  }

  lemma NoneNumbered(events: seq<RingEvent>, snaplen: nat)
    ensures Numbered(events[..0], snaplen) == [] && RingMarks(events[..0], snaplen) == {}
  {
  }

  lemma NumberedPush(events: seq<RingEvent>, i: nat, snaplen: nat)
    requires i < |events|
    ensures var before := Numbered(events[..i], snaplen);
            Numbered(events[..i + 1], snaplen) ==
              if events[i].GotFrame? then before + [PacketOf(events[i].frame, |before| + 1, snaplen)] else before
    ensures RingMarks(events[..i + 1], snaplen) == RingMarks(events[..i], snaplen)
              + if Overdue(events[i]) || events[i].ReadError? then {|Numbered(events[..i], snaplen)|} else {}
  {
    assert events[..i + 1][..i] == events[..i];
  }

  lemma {:induction false} NumberedFromOne(events: seq<RingEvent>, snaplen: nat)
    ensures forall k :: 0 <= k < |Numbered(events, snaplen)| ==>
              Numbered(events, snaplen)[k].sequence == k + 1 && Numbered(events, snaplen)[k].capturedLength <= snaplen
    decreases |events|
  {
    if events != [] {
      NumberedFromOne(events[..|events| - 1], snaplen);
    }
  }

  /** One frame from the ring: flush first if the batch is past its age, then copy and take the frame. */
  method TakeFrame(request: Request, batches: seq<Captured>, batch: Captured, arena: seq<Byte>, ghost received: seq<Packet>,
                   frame: Frame, overdue: bool, sequence: nat, accepts: nat -> bool, attempts: nat, ghost marks: set<nat>)
    returns (batches': seq<Captured>, batch': Captured, arena': seq<Byte>, ok: bool, attempts': nat)
    requires Keeps(request, batches, batch, received)
    requires Reasons(request, batches, received, marks) && (overdue ==> |received| in marks)
    ensures Reasons(request, batches', received + [PacketOf(frame, sequence, request.snaplen)], marks)
    ensures AllOk(request, batches') && Laid(batches') <= received + [PacketOf(frame, sequence, request.snaplen)]
    ensures ok ==> Keeps(request, batches', batch', received + [PacketOf(frame, sequence, request.snaplen)])
    ensures ok && overdue ==> |batch'.packets| <= 1
    ensures (forall n :: accepts(n)) ==> ok
  {
    hide BatchOk, Filling, AllOk, Keeps, OnWire, Cut, Laid, Reasons;
    batches', batch', arena', ok, attempts' := batches, batch, arena, true, attempts;
    if overdue {
      batches', batch', ok := FlushKept(request, batches, batch, received, accepts(attempts), marks);
      attempts' := attempts + 1;
      if !ok {
        ReasonsGrow(request, batches', received, received + [PacketOf(frame, sequence, request.snaplen)], marks, marks);
        return;
      }
    }
    var length := CapturedPacketLength(frame, request.snaplen);
    var data;
    arena', data := AppendCapturedPacket(arena, frame, request.snaplen);
    assert length == |data|;
    var packet := Packet(frame.timestamp, sequence, length, data);
    batches', batch', ok, attempts' := TakePacket(request, batches', batch', received, packet, accepts, attempts', marks);
  }

  /** captureLoop: what is sent is a prefix of the numbered packets, the rest is the one batch being
      filled, and a batch past its age is not kept. */
  method CaptureLoop(request: Request, events: seq<RingEvent>, accepts: nat -> bool)
    returns (batches: seq<Captured>, unsent: Captured, end: End, seen: nat)
    ensures AllOk(request, batches) && seen <= |events|
    ensures Laid(batches) <= Numbered(events[..seen], request.snaplen)
    ensures forall k :: 0 <= k < |Laid(batches)| ==> Laid(batches)[k].sequence == k + 1
    ensures end == Finished ==>
              Laid(batches) == Numbered(events[..seen], request.snaplen) && seen > 0 && events[seen - 1].ReadError?
    ensures end == StillRunning ==> seen == |events| && Keeps(request, batches, unsent, Numbered(events, request.snaplen))
    ensures end == StillRunning && events != [] && Overdue(events[|events| - 1]) ==>
              |unsent.packets| <= if events[|events| - 1].GotFrame? then 1 else 0
    ensures Reasons(request, batches, Numbered(events[..seen], request.snaplen), RingMarks(events[..seen], request.snaplen))
    ensures (forall i :: 0 <= i < |events| ==> !events[i].ContextDone?) && (forall n :: accepts(n)) ==> end != Interrupted
  {
    batches, end, seen, unsent := [], StillRunning, 0, EMPTY;
    var arena: seq<Byte> := [];
    var attempts: nat, sequence: nat := 0, 0;
    StartEmpty(request);
    NoneNumbered(events, request.snaplen);
    NoBatches(request, [], {});
    assert Looped(request, events, 0, batches, unsent, end);
    hide Looped, Numbered, RingMarks, Reasons;
    while seen < |events| && end == StillRunning
      invariant 0 <= seen <= |events| && Looped(request, events, seen, batches, unsent, end)
      invariant end == StillRunning ==> sequence == |Numbered(events[..seen], request.snaplen)|
      invariant (forall i :: 0 <= i < |events| ==> !events[i].ContextDone?) && (forall n :: accepts(n)) ==> end != Interrupted
      decreases |events| - seen
    {
      batches, unsent, arena, sequence, end, attempts :=
        OnRingEvent(request, events, seen, batches, unsent, arena, sequence, accepts, attempts);
      seen := seen + 1;
    }
    LoopDone(request, events, seen, batches, unsent, end);
  }

  /** Where captureLoop stands after the first `seen` events. */
  ghost predicate Looped(request: Request, events: seq<RingEvent>, seen: nat, batches: seq<Captured>, unsent: Captured, end: End)
    requires seen <= |events|
  {
    var all := Numbered(events[..seen], request.snaplen);
    && AllOk(request, batches) && Laid(batches) <= all && Reasons(request, batches, all, RingMarks(events[..seen], request.snaplen))
    && (end == StillRunning ==> Keeps(request, batches, unsent, all))
    && (end == StillRunning && seen > 0 && Overdue(events[seen - 1]) ==>
          |unsent.packets| <= if events[seen - 1].GotFrame? then 1 else 0)
    && (end == Finished ==> Laid(batches) == all && seen > 0 && events[seen - 1].ReadError?)
  }

  lemma LoopDone(request: Request, events: seq<RingEvent>, seen: nat, batches: seq<Captured>, unsent: Captured, end: End)
    requires seen <= |events| && Looped(request, events, seen, batches, unsent, end)
    ensures AllOk(request, batches) && Laid(batches) <= Numbered(events[..seen], request.snaplen)
    ensures forall k :: 0 <= k < |Laid(batches)| ==> Laid(batches)[k].sequence == k + 1
    ensures end == Finished ==>
              Laid(batches) == Numbered(events[..seen], request.snaplen) && seen > 0 && events[seen - 1].ReadError?
    ensures end == StillRunning ==> Keeps(request, batches, unsent, Numbered(events[..seen], request.snaplen))
    ensures seen == |events| ==> events[..seen] == events
    ensures Reasons(request, batches, Numbered(events[..seen], request.snaplen), RingMarks(events[..seen], request.snaplen))
    ensures end == StillRunning && seen > 0 && Overdue(events[seen - 1]) ==>
              |unsent.packets| <= if events[seen - 1].GotFrame? then 1 else 0
  {
    hide AllOk, Keeps, Numbered, Laid, Reasons, RingMarks;
    NumberedFromOne(events[..seen], request.snaplen);
  }

  /** One turn of captureLoop. */
  method OnRingEvent(request: Request, events: seq<RingEvent>, seen: nat, batches: seq<Captured>, unsent: Captured,
                     arena: seq<Byte>, sequence: nat, accepts: nat -> bool, attempts: nat)
    returns (batches': seq<Captured>, unsent': Captured, arena': seq<Byte>, sequence': nat, end: End, attempts': nat)
    requires seen < |events| && Looped(request, events, seen, batches, unsent, StillRunning)
    requires sequence == |Numbered(events[..seen], request.snaplen)|
    ensures Looped(request, events, seen + 1, batches', unsent', end)
    ensures end == StillRunning ==> sequence' == |Numbered(events[..seen + 1], request.snaplen)|
    ensures !events[seen].ContextDone? && (forall n :: accepts(n)) ==> end != Interrupted
  {
    hide BatchOk, Filling, AllOk, Keeps, OnWire, Cut, Laid, Numbered, RingMarks, Reasons;
    batches', unsent', arena', sequence', end, attempts' := batches, unsent, arena, sequence, StillRunning, attempts;
    ghost var received := Numbered(events[..seen], request.snaplen);
    ghost var marks := RingMarks(events[..seen + 1], request.snaplen);
    NumberedPush(events, seen, request.snaplen);
    ReasonsGrow(request, batches, received, received, RingMarks(events[..seen], request.snaplen), marks);
    var ok := true;
    match events[seen] {
      case ContextDone => ok := false;
      case ReadError =>
        batches', unsent', ok := FlushKept(request, batches, unsent, received, accepts(attempts), marks);
        end := Finished;
      case Timeout(overdue) =>
        if overdue {
          batches', unsent', ok := FlushKept(request, batches, unsent, received, accepts(attempts), marks);
          attempts' := attempts + 1;
        }
      case GotFrame(frame, overdue) =>
        sequence' := sequence + 1;
        batches', unsent', arena', ok, attempts' :=
          TakeFrame(request, batches, unsent, arena, received, frame, overdue, sequence', accepts, attempts, marks);
    }
    if !ok {
      end := Interrupted;
    }
  }
}
