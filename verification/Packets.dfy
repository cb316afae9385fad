/** The values that flow through the capture server: packets, the description of the
    stream they belong to, and the batches in which they travel. */
module Packets {
  import Sorting

  /** Nanoseconds since Go's zero time; 0 is the value for which `IsZero()` holds. */
  type Time = nat

  type Byte = x: int | 0 <= x < 256

  /** An identifier: session, node, interface, pod and so on. The code modelled here compares identifiers
      for equality and, to break ties when sorting, by some total order. */
  type Name = nat

  datatype TargetType = InterfaceType | WorkloadType

  datatype Source = Source(
    id: Name, targetID: Name, targetType: TargetType, nodeName: Name, logicalInterface: Name,
    interfaceName: Name, podNamespace: Name, podName: Name, podUID: Name, podIP: Name)

  datatype Packet = Packet(timestamp: Time, sequence: nat, capturedLength: nat, data: seq<Byte>)

  /** A batch with its packets left out: everything `sameBatchStream` compares. */
  datatype Template = Template(sessionID: Name, nodeName: Name, interfaceName: Name, source: Source)

  datatype Batch = Batch(template: Template, packets: seq<Packet>)

  /** What the reorder buffer keeps for each packet. */
  datatype Item = Item(template: Template, packet: Packet, receivedAt: Time)

  /** The heap's order: by timestamp, then by sequence number. */
  predicate Less(a: Item, b: Item) {
    if a.packet.timestamp == b.packet.timestamp
    then a.packet.sequence < b.packet.sequence
    else a.packet.timestamp < b.packet.timestamp
  }

  predicate AtMost(a: Item, b: Item) {
    !Less(b, a)
  }

  ghost predicate Ordered(s: seq<Item>) {
    Sorting.Ordered(s, Less)
  }

  ghost predicate LeastOf(x: Item, buffer: multiset<Item>) {
    x in buffer && forall y :: y in buffer ==> AtMost(x, y)
  }

  function PacketsOf(items: seq<Item>): (r: seq<Packet>)
    ensures |r| == |items|
    ensures forall i :: 0 <= i < |r| ==> r[i] == items[i].packet
  {
    seq(|items|, i requires 0 <= i < |items| => items[i].packet)
  }

  function Bytes(packets: seq<Packet>): nat {
    if packets == [] then 0 else Bytes(packets[..|packets| - 1]) + packets[|packets| - 1].capturedLength
  }
}
