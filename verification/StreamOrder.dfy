/** What every run of the pipeline keeps about the packets themselves: none is lost or
    invented, and in which order they come out. */
module StreamOrder {
  import opened Options
  import opened Packets
  import opened StreamModel

  // ---------- Conservation ----------

  ghost predicate Balanced(accepted: seq<Item>, emitted: seq<Item>, buffer: multiset<Item>, lastEmitted: Time) {
    && multiset(accepted) == multiset(emitted) + buffer
    && lastEmitted == if emitted == [] then 0 else emitted[|emitted| - 1].packet.timestamp
  }

  ghost predicate Conserved(s: State) {
    Balanced(s.accepted, s.emitted, s.buffer, s.lastEmitted)
  }

  lemma ConservedStep(config: Config, s: State, e: Event)
    requires Enabled(config, s, e) && Conserved(s)
    ensures Conserved(Apply(config, s, e))
  {
    if e.Emit? {
      FromBuffer(config, s.buffer, e.mode, e.items);
      EmitBalances(s.accepted, s.emitted, s.buffer, s.lastEmitted, e.items);
    }
    hide Balanced, OneBatch, Complete, LateCount, OfferAll, CloseAll, Receivable;
    if e.Publish? {
      PublishBalances(s.accepted, s.emitted, s.buffer, s.lastEmitted, ItemsOf(e.template, e.packets, e.now));
    }
  }

  lemma FromBuffer(config: Config, buffer: multiset<Item>, mode: Mode, items: seq<Item>)
    requires OneBatch(config, buffer, mode, items)
    ensures items != [] && multiset(items) <= buffer
  {
  }

  lemma PublishBalances(accepted: seq<Item>, emitted: seq<Item>, buffer: multiset<Item>, last: Time, items: seq<Item>)
    requires Balanced(accepted, emitted, buffer, last)
    ensures Balanced(accepted + items, emitted, buffer + multiset(items), last)
  {
  }

  lemma EmitBalances(accepted: seq<Item>, emitted: seq<Item>, buffer: multiset<Item>, last: Time, items: seq<Item>)
    requires Balanced(accepted, emitted, buffer, last) && multiset(items) <= buffer && items != []
    ensures Balanced(accepted, emitted + items, buffer - multiset(items), items[|items| - 1].packet.timestamp)
  {
  }

  /** In every reachable state the accepted packets are the emitted and the buffered ones. */
  lemma {:induction false} Conservation(config: Config, run: seq<Event>)
    requires After(config, run).Some?
    ensures Conserved(After(config, run).value)
    decreases |run|
  {
    if run != [] {
      Conservation(config, run[..|run| - 1]);
      ConservedStep(config, After(config, run[..|run| - 1]).value, run[|run| - 1]);
    }
  }

  // ---------- Descents ----------

  /** How often a packet is emitted right after one with a later timestamp. */
  function Descents(s: seq<Item>): nat {
    if |s| < 2 then 0
    else Descents(s[..|s| - 1]) + if s[|s| - 1].packet.timestamp < s[|s| - 2].packet.timestamp then 1 else 0
  }

  ghost predicate BelowBuffered(s: State) {
    exists x :: x in s.buffer && x.packet.timestamp < s.lastEmitted
  }

  ghost predicate DescentsPaid(s: State) {
    Descents(s.emitted) + (if BelowBuffered(s) then 1 else 0) <= s.late
  }

  /** An ordered tail adds a descent only where it starts. */
  lemma {:induction false} DescentsAppend(s: seq<Item>, tail: seq<Item>)
    requires Ordered(tail) && tail != []
    ensures Descents(s + tail) ==
            Descents(s) + if s != [] && tail[0].packet.timestamp < s[|s| - 1].packet.timestamp then 1 else 0
    decreases |tail|
  {
    var n := |tail| - 1;
    assert (s + tail)[..|s + tail| - 1] == s + tail[..n];
    if n == 0 {
      assert s + tail[..n] == s;
    } else {
      DescentsAppend(s, tail[..n]);
      assert AtMost(tail[n - 1], tail[n]);
    }
  }

  lemma {:induction false} NoLateNoneBelow(packets: seq<Packet>, last: Time)
    ensures LateCount(packets, last) == 0 <==> forall i :: 0 <= i < |packets| ==> packets[i].timestamp >= last
    decreases |packets|
  {
    if packets != [] {
      var n := |packets| - 1;
      NoLateNoneBelow(packets[..n], last);
      assert forall i :: 0 <= i < n ==> packets[..n][i] == packets[i];
    }
  }

  lemma PublishPaysDescents(config: Config, s: State, e: Event)
    requires e.Publish? && DescentsPaid(s)
    ensures DescentsPaid(Apply(config, s, e))
  {
    var t := Apply(config, s, e);
    NoLateNoneBelow(e.packets, s.lastEmitted);
    if !BelowBuffered(s) && BelowBuffered(t) {
      var x :| x in t.buffer && x.packet.timestamp < t.lastEmitted;
      assert x in ItemsOf(e.template, e.packets, e.now);
    }
  }

  lemma EmitPaysDescents(config: Config, s: State, e: Event)
    requires e.Emit? && Enabled(config, s, e) && Conserved(s) && DescentsPaid(s)
    ensures DescentsPaid(Apply(config, s, e))
  {
    var t := Apply(config, s, e);
    DescentsAppend(s.emitted, e.items);
    assert e.items[0] in multiset(e.items);
    forall x | x in t.buffer ensures x.packet.timestamp >= t.lastEmitted {
      assert AtMost(e.items[|e.items| - 1], x);
    }
  }

  lemma {:induction false} DescentsKept(config: Config, run: seq<Event>)
    requires After(config, run).Some?
    ensures DescentsPaid(After(config, run).value)
    decreases |run|
  {
    if run != [] {
      var prior := run[..|run| - 1];
      var s, e := After(config, prior).value, run[|run| - 1];
      DescentsKept(config, prior);
      if e.Publish? {
        PublishPaysDescents(config, s, e);
      } else if e.Emit? {
        Conservation(config, prior);
        EmitPaysDescents(config, s, e);
      } else {
        assert BelowBuffered(Apply(config, s, e)) <==> BelowBuffered(s);
      }
    }
  }

  /** With no assumption on time at all, the emitted sequence steps back at most once for
      every packet that was counted late. */
  lemma DescentsAtMostLate(config: Config, run: seq<Event>)
    requires After(config, run).Some?
    ensures Descents(After(config, run).value.emitted) <= After(config, run).value.late
  {
    DescentsKept(config, run);
  }

  // ---------- Why packets leave when they do, and batches end where they do ----------

  /** At `now` the packet is a window old by its own timestamp and has been buffered for the delay. */
  ghost predicate BothPassed(config: Config, now: Time, item: Item) {
    item.packet.timestamp + config.window <= now && item.receivedAt + config.maxDelay <= now
  }

  /** What ends a batch before the least packet left: it has to wait, it is of another source, the batch
      is full, or the packet would make it too large. */
  ghost predicate Ends(config: Config, mode: Mode, items: seq<Item>, next: Item)
    requires items != []
  {
    var bytes := Bytes(PacketsOf(items));
    || (mode.Watermark? && !BothPassed(config, mode.now, next))
    || next.template != items[0].template
    || |items| >= config.maxPackets || bytes >= config.maxBytes || bytes + next.packet.capturedLength > config.maxBytes
  }

  lemma ReadyIff(config: Config, mode: Mode, item: Item)
    ensures Ready(config, mode, item) <==> mode.All? || BothPassed(config, mode.now, item)
  {
  }

  lemma EndsIff(config: Config, mode: Mode, items: seq<Item>, next: Item)
    requires items != []
    ensures Ready(config, mode, next) && Joins(config, items, next) <==> !Ends(config, mode, items, next)
  {
    ReadyIff(config, mode, next);
  }

  /** Over every run: a tick lets out only packets that are past both watermarks, and the batch ends
      only where nothing is left or the least packet left gives reason to. */
  lemma EmissionExplained(config: Config, run: seq<Event>, k: nat)
    requires After(config, run).Some? && k < |run| && run[k].Emit?
    ensures After(config, run[..k]).Some? && run[k].items != []
    ensures run[k].mode.Watermark? ==>
              forall i :: 0 <= i < |run[k].items| ==> BothPassed(config, run[k].mode.now, run[k].items[i])
    ensures var rest := After(config, run[..k]).value.buffer - multiset(run[k].items);
            rest == multiset{} || exists next :: LeastOf(next, rest) && Ends(config, run[k].mode, run[k].items, next)
  {
    Prefix(config, run, k);
    var mode, items := run[k].mode, run[k].items;
    var rest := After(config, run[..k]).value.buffer - multiset(items);
    forall i | 0 <= i < |items| ensures mode.Watermark? ==> BothPassed(config, mode.now, items[i]) {
      ReadyIff(config, mode, items[i]);
    }
    if rest != multiset{} {
      var next :| LeastOf(next, rest) && !(Ready(config, mode, next) && Joins(config, items, next));
      EndsIff(config, mode, items, next);
    }
  }

  lemma {:induction false} Prefix(config: Config, run: seq<Event>, k: nat)
    requires After(config, run).Some? && k < |run|
    ensures After(config, run[..k]).Some? && Enabled(config, After(config, run[..k]).value, run[k])
    decreases |run|
  {
    var n := |run| - 1;
    if k < n {
      assert run[..n][..k] == run[..k];
      Prefix(config, run[..n], k);
    }
  }

  // ---------- The reorder window ----------

  /** The clock never runs back: a tick reads it before it takes the mutex, a publish after. */
  ghost predicate ClockMonotone(run: seq<Event>) {
    forall i, j :: 0 <= i < j < |run| && run[i].Emit? && run[i].mode.Watermark? && run[j].Publish?
                   ==> run[i].mode.now <= run[j].now
  }

  /** Every packet is published at most one window after its own timestamp. */
  ghost predicate Timely(config: Config, run: seq<Event>) {
    forall j, k :: 0 <= j < |run| && run[j].Publish? && 0 <= k < |run[j].packets|
                   ==> run[j].now <= run[j].packets[k].timestamp + config.window
  }

  /** Nothing is published once the closing drain has begun. */
  ghost predicate DrainsLast(run: seq<Event>) {
    forall i, j :: 0 <= i < j < |run| && run[i].Emit? && run[i].mode.All? ==> !run[j].Publish?
  }

  ghost predicate Punctual(config: Config, run: seq<Event>) {
    ClockMonotone(run) && Timely(config, run) && DrainsLast(run)
  }

  /** Some tick let the last emitted packet through, unless a drain did or nothing was emitted. */
  ghost predicate LastWasReady(config: Config, run: seq<Event>, last: Time) {
    || last == 0
    || exists i :: 0 <= i < |run| && run[i].Emit? && (run[i].mode.All? || last <= run[i].mode.now - config.window)
  }

  lemma {:induction false} WindowKept(config: Config, run: seq<Event>)
    requires After(config, run).Some? && Punctual(config, run)
    ensures After(config, run).value.late == 0
    ensures LastWasReady(config, run, After(config, run).value.lastEmitted)
    decreases |run|
  {
    if run != [] {
      var n := |run| - 1;
      var s := After(config, run[..n]).value;
      WindowKept(config, run[..n]);
      if run[n].Emit? {
        EmitWasReady(config, run, s);
      }
      if run[n].Publish? {
        NoneIsLate(config, run, s.lastEmitted);
      }
      StillReady(config, run, s.lastEmitted);
      hide ClockMonotone, Timely, DrainsLast, LastWasReady, OneBatch, Complete, LateCount, OfferAll, CloseAll;
    }
  }

  lemma EmitWasReady(config: Config, run: seq<Event>, s: State)
    requires run != [] && run[|run| - 1].Emit? && Enabled(config, s, run[|run| - 1])
    ensures LastWasReady(config, run, Apply(config, s, run[|run| - 1]).lastEmitted)
  {
    hide Complete, Joins, LeastFirst, OfferAll;
    var e := run[|run| - 1];
    assert Ready(config, e.mode, e.items[|e.items| - 1]);
  }

  lemma StillReady(config: Config, run: seq<Event>, last: Time)
    requires run != [] && LastWasReady(config, run[..|run| - 1], last)
    ensures LastWasReady(config, run, last)
  {
    var prior := run[..|run| - 1];
    if last != 0 {
      var i :| 0 <= i < |prior| && prior[i].Emit? && (prior[i].mode.All? || last <= prior[i].mode.now - config.window);
      assert run[i] == prior[i];
    }
  }

  lemma NoneIsLate(config: Config, run: seq<Event>, last: Time)
    requires run != [] && run[|run| - 1].Publish? && LastWasReady(config, run[..|run| - 1], last)
    requires Punctual(config, run)
    ensures LateCount(run[|run| - 1].packets, last) == 0
  {
    var prior, e := run[..|run| - 1], run[|run| - 1];
    if last != 0 {
      var i :| 0 <= i < |prior| && prior[i].Emit? && (prior[i].mode.All? || last <= prior[i].mode.now - config.window);
      assert run[i] == prior[i];
    }
    NoLateNoneBelow(e.packets, last);
  }

  /** The reorder-window theorem: whatever the interleaving of publishes, ticks, wake-ups and
      subscribers, up to and including the closing drain, no packet is late and timestamps
      never step back. */
  lemma ReorderWindow(config: Config, run: seq<Event>)
    requires After(config, run).Some? && Punctual(config, run)
    ensures var s := After(config, run).value;
            s.late == 0 &&
            forall i, j :: 0 <= i < j < |s.emitted| ==> s.emitted[i].packet.timestamp <= s.emitted[j].packet.timestamp
  {
    WindowKept(config, run);
    DescentsAtMostLate(config, run);
    NoDescentsSorted(After(config, run).value.emitted);
  }

  /** The window is exact: a packet published one tick later than the theorem allows can be late. */
  lemma OneTickTooLate(config: Config, t: Template, first: Packet, second: Packet, now: Time)
    requires Normalized(config) && config.maxDelay == 0 && config.window >= 0
    requires first.timestamp + config.window == now && second.timestamp + 1 == first.timestamp
    ensures var item := Item(t, first, 0);
            var run := [Publish(t, [first], 0), Emit(Watermark(now), [item]), Publish(t, [second], now)];
            && ClockMonotone(run) && DrainsLast(run)
            && now == second.timestamp + config.window + 1
            && After(config, run).Some? && After(config, run).value.late == 1
  {
    hide After;
    SecondIsLate(config, Publish(t, [first], 0), Emit(Watermark(now), [Item(t, first, 0)]), t, first, second, now);
  }

  lemma SecondIsLate(config: Config, e1: Event, e2: Event, t: Template, first: Packet, second: Packet, now: Time)
    requires Normalized(config) && config.maxDelay == 0 && first.timestamp + config.window == now
    requires second.timestamp < first.timestamp
    requires e1 == Publish(t, [first], 0) && e2 == Emit(Watermark(now), [Item(t, first, 0)])
    ensures var run := [e1, e2, Publish(t, [second], now)];
            After(config, run).Some? && After(config, run).value.late == 1
  {
    var e3 := Publish(t, [second], now);
    FirstIsOut(config, t, first, now);
    LateOne(second, first.timestamp);
    hide After, LateCount, OneBatch, Complete, OfferAll, CloseAll, Receivable;
    AfterExtended(config, [e1, e2], e3);
    assert [e1, e2] + [e3] == [e1, e2, e3];
  }

  lemma FirstIsOut(config: Config, t: Template, first: Packet, now: Time)
    requires Normalized(config) && config.maxDelay == 0 && first.timestamp + config.window == now
    ensures var run := [Publish(t, [first], 0), Emit(Watermark(now), [Item(t, first, 0)])];
            && After(config, run).Some? && After(config, run).value.late == 0 && !After(config, run).value.closed
            && After(config, run).value.lastEmitted == first.timestamp
  {
    var item := Item(t, first, 0);
    var e1, e2 := Publish(t, [first], 0), Emit(Watermark(now), [item]);
    assert ItemsOf(t, [first], 0) == [item];
    LateOne(first, 0);
    AloneIsBatch(config, item, Watermark(now));
    assert multiset([item]) == multiset{item};
    assert After(config, []) == Some(INITIAL);
    hide After, LateCount, OneBatch, Complete;
    AfterExtended(config, [], e1);
    assert [] + [e1] == [e1];
    AfterExtended(config, [e1], e2);
    assert [e1] + [e2] == [e1, e2];
  }

  lemma LateOne(packet: Packet, last: Time)
    ensures LateCount([packet], last) == if packet.timestamp < last then 1 else 0
  {
    assert [packet][..0] == [];
  }

  lemma AloneIsBatch(config: Config, item: Item, mode: Mode)
    requires Normalized(config) && Ready(config, mode, item)
    ensures OneBatch(config, multiset{item}, mode, [item]) && Complete(config, multiset{item}, mode, [item])
  {
    assert multiset([item]) == multiset{item};
    assert multiset{item} - multiset([item]) == multiset{};
  }

  lemma {:induction false} NoDescentsSorted(s: seq<Item>)
    requires Descents(s) == 0
    ensures forall i, j :: 0 <= i < j < |s| ==> s[i].packet.timestamp <= s[j].packet.timestamp
    decreases |s|
  {
    if |s| >= 2 {
      var n := |s| - 1;
      NoDescentsSorted(s[..n]);
      forall i, j | 0 <= i < j < |s| ensures s[i].packet.timestamp <= s[j].packet.timestamp {
        if j < n {
          assert s[..n][i].packet.timestamp <= s[..n][j].packet.timestamp;
        } else if i < n - 1 {
          assert s[..n][i].packet.timestamp <= s[..n][n - 1].packet.timestamp;
        }
      }
    }
  }

  // ---------- Per-source order ----------

  /** The items of one source, in order. */
  function Of(s: seq<Item>, t: Template): seq<Item> {
    if s == [] then []
    else if s[|s| - 1].template == t then Of(s[..|s| - 1], t) + [s[|s| - 1]]
    else Of(s[..|s| - 1], t)
  }

  /** The source published with increasing sequence numbers and non-decreasing timestamps. */
  ghost predicate InOrder(s: seq<Item>) {
    forall i, j :: 0 <= i < j < |s| ==>
      s[i].packet.sequence < s[j].packet.sequence && s[i].packet.timestamp <= s[j].packet.timestamp
  }

  lemma {:induction false} OfAppend(a: seq<Item>, b: seq<Item>, t: Template)
    ensures Of(a + b, t) == Of(a, t) + Of(b, t)
    decreases |b|
  {
    if b == [] {
      assert a + b == a;
    } else {
      OfAppend(a, b[..|b| - 1], t);
      assert (a + b)[..|a + b| - 1] == a + b[..|b| - 1];
    }
  }

  lemma {:induction false} OfCounts(s: seq<Item>, t: Template, x: Item)
    requires x.template == t
    ensures multiset(Of(s, t))[x] == multiset(s)[x]
    decreases |s|
  {
    if s != [] {
      assert s == s[..|s| - 1] + [s[|s| - 1]];
      OfCounts(s[..|s| - 1], t, x);
    }
  }

  /** The source's items still buffered are those not yet emitted. */
  lemma BufferedOf(accepted: seq<Item>, emitted: seq<Item>, buffer: multiset<Item>, t: Template, x: Item)
    requires multiset(accepted) == multiset(emitted) + buffer && x.template == t
    requires Of(emitted, t) <= Of(accepted, t)
    ensures buffer[x] == multiset(Of(accepted, t)[|Of(emitted, t)|..])[x]
  {
    OfCounts(accepted, t, x);
    OfCounts(emitted, t, x);
    SplitCounts(Of(accepted, t), Of(emitted, t), x);
  }

  lemma SplitCounts(whole: seq<Item>, prefix: seq<Item>, x: Item)
    requires prefix <= whole
    ensures multiset(whole)[x] == multiset(prefix)[x] + multiset(whole[|prefix|..])[x]
  {
    assert whole == prefix + whole[|prefix|..];
  }

  /** Nothing of a source has overtaken: what came out is a prefix of what went in. */
  ghost predicate Tracks(accepted: seq<Item>, emitted: seq<Item>, buffer: multiset<Item>, t: Template) {
    multiset(accepted) == multiset(emitted) + buffer && InOrder(Of(accepted, t)) && Of(emitted, t) <= Of(accepted, t)
  }

  /** Popping the least item keeps what came out of a source a prefix of what went in. */
  lemma PopKeepsOrder(accepted: seq<Item>, emitted: seq<Item>, buffer: multiset<Item>, y: Item, t: Template)
    requires Tracks(accepted, emitted, buffer, t) && LeastOf(y, buffer)
    ensures Tracks(accepted, emitted + [y], buffer - multiset{y}, t)
  {
    OfPush(emitted, y, t);
    EmitOneConserves(accepted, emitted, buffer, y);
    hide Of, InOrder;
    if y.template == t {
      NextOf(accepted, emitted, buffer, y, t);
      PrefixPush(Of(emitted, t), Of(accepted, t), y);
    }
  }

  lemma OfPush(s: seq<Item>, y: Item, t: Template)
    ensures Of(s + [y], t) == if y.template == t then Of(s, t) + [y] else Of(s, t)
  {
    assert (s + [y])[..|s|] == s;
  }

  lemma PrefixPush<T>(prefix: seq<T>, whole: seq<T>, x: T)
    requires prefix <= whole && |prefix| < |whole| && whole[|prefix|] == x
    ensures prefix + [x] <= whole
  {
  }

  /** If the least buffered item is of this source, it is the next one the source published. */
  lemma NextOf(accepted: seq<Item>, emitted: seq<Item>, buffer: multiset<Item>, y: Item, t: Template)
    requires Tracks(accepted, emitted, buffer, t) && LeastOf(y, buffer) && y.template == t
    ensures |Of(emitted, t)| < |Of(accepted, t)| && Of(accepted, t)[|Of(emitted, t)|] == y
  {
    var a, k := Of(accepted, t), |Of(emitted, t)|;
    hide Of, InOrder;
    BufferedOf(accepted, emitted, buffer, t, y);
    assert y in a[k..];
    var j :| 0 <= j < |a[k..]| && a[k..][j] == y;
    OfTemplate(accepted, t, k);
    BufferedOf(accepted, emitted, buffer, t, a[k]);
    NextIsLeast(a, k, buffer, k + j);
  }

  lemma NextIsLeast(a: seq<Item>, k: int, buffer: multiset<Item>, j: int)
    requires InOrder(a) && 0 <= k <= j < |a|
    requires buffer[a[k]] == multiset(a[k..])[a[k]] && LeastOf(a[j], buffer)
    ensures j == k
  {
    assert a[k..][0] == a[k];
    assert a[k] in multiset(a[k..]);
    assert AtMost(a[j], a[k]);
  }

  lemma {:induction false} OfTemplate(s: seq<Item>, t: Template, k: int)
    requires 0 <= k < |Of(s, t)|
    ensures Of(s, t)[k].template == t
    decreases |s|
  {
    if k < |Of(s[..|s| - 1], t)| {
      OfTemplate(s[..|s| - 1], t, k);
    }
  }

  lemma {:induction false} EmitKeepsOrder(accepted: seq<Item>, emitted: seq<Item>, buffer: multiset<Item>, items: seq<Item>, t: Template)
    requires Tracks(accepted, emitted, buffer, t) && LeastFirst(buffer, items)
    ensures Tracks(accepted, emitted + items, buffer - multiset(items), t)
    decreases |items|
  {
    if items == [] {
      assert emitted + items == emitted;
    } else {
      LeastFirstHead(buffer, items);
      hide Tracks, LeastFirst, LeastOf;
      PopKeepsOrder(accepted, emitted, buffer, items[0], t);
      EmitKeepsOrder(accepted, emitted + [items[0]], buffer - multiset{items[0]}, items[1..], t);
      HeadFirst(emitted, buffer, items);
    }
  }

  lemma HeadFirst(emitted: seq<Item>, buffer: multiset<Item>, items: seq<Item>)
    requires items != []
    ensures emitted + [items[0]] + items[1..] == emitted + items
    ensures buffer - multiset{items[0]} - multiset(items[1..]) == buffer - multiset(items)
  {
    assert items == [items[0]] + items[1..];
  }

  lemma EmitOneConserves(accepted: seq<Item>, emitted: seq<Item>, buffer: multiset<Item>, y: Item)
    requires multiset(accepted) == multiset(emitted) + buffer && y in buffer
    ensures multiset(accepted) == multiset(emitted + [y]) + (buffer - multiset{y})
  {
  }

  lemma LeastFirstHead(buffer: multiset<Item>, items: seq<Item>)
    requires LeastFirst(buffer, items) && items != []
    ensures LeastOf(items[0], buffer) && LeastFirst(buffer - multiset{items[0]}, items[1..])
  {
    var y, rest := items[0], items[1..];
    assert items == [y] + rest;
    assert multiset(items) == multiset{y} + multiset(rest);
    assert y in multiset(items);
    forall x | x in buffer ensures AtMost(y, x) {
      if x !in buffer - multiset(items) {
        assert x in multiset(items);
        assert x in items;
        var j :| 0 <= j < |items| && items[j] == x;
        assert j == 0 || AtMost(items[0], items[j]);
      }
    }
    assert buffer - multiset{y} - multiset(rest) == buffer - multiset(items);
    forall i, x | 0 <= i < |rest| && x in buffer - multiset(items) ensures AtMost(rest[i], x) {
      assert rest[i] == items[i + 1];
    }
  }

  /** Per-source order: what one source published in order is emitted in exactly that order,
      whatever the other sources do. */
  lemma {:induction false} SourceOrder(config: Config, run: seq<Event>, t: Template)
    requires After(config, run).Some? && InOrder(Of(After(config, run).value.accepted, t))
    ensures Of(After(config, run).value.emitted, t) <= Of(After(config, run).value.accepted, t)
    decreases |run|
  {
    if run != [] {
      var prior, e := run[..|run| - 1], run[|run| - 1];
      var s := After(config, prior).value;
      PriorInOrder(config, s, e, t);
      SourceOrder(config, prior, t);
      if e.Emit? {
        Conservation(config, prior);
        EmitKeepsOrder(s.accepted, s.emitted, s.buffer, e.items, t);
      }
    }
  }

  lemma PriorInOrder(config: Config, s: State, e: Event, t: Template)
    requires Enabled(config, s, e) && InOrder(Of(Apply(config, s, e).accepted, t))
    ensures InOrder(Of(s.accepted, t)) && Of(s.accepted, t) <= Of(Apply(config, s, e).accepted, t)
  {
    if e.Publish? && !s.closed && e.packets != [] {
      OfAppend(s.accepted, ItemsOf(e.template, e.packets, e.now), t);
      var a, b := Of(s.accepted, t), Of(Apply(config, s, e).accepted, t);
      assert forall i :: 0 <= i < |a| ==> a[i] == b[i];
    }
  }
}
