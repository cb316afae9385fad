/** The benchmark packet header: a four-byte magic, run ID, sequence number and send time, all
    big-endian, found again anywhere in a captured packet. */
module Header {
  import opened Options
  import opened Packets

  const HEADER_SIZE := 20
  const MAGIC: seq<Byte> := [67, 77, 66, 49]  // "CMB1"
  const TWO_32 := 0x1_0000_0000
  const TWO_64 := 0x1_0000_0000_0000_0000

  type Word32 = x: int | 0 <= x < TWO_32
  type Int64 = x: int | -0x8000_0000_0000_0000 <= x < 0x8000_0000_0000_0000

  datatype Stamp = Stamp(sequence: Word32, sentAt: Int64)

  // ---------- Big-endian integers ----------

  function Encode(value: nat, width: nat): (bytes: seq<Byte>)
    ensures |bytes| == width
  {
    if width == 0 then [] else Encode(value / 256, width - 1) + [value % 256]
  }

  function Decode(bytes: seq<Byte>): nat {
    if bytes == [] then 0 else Decode(bytes[..|bytes| - 1]) * 256 + bytes[|bytes| - 1]
  }

  function Power(width: nat): nat {
    if width == 0 then 1 else Power(width - 1) * 256
  }

  /** Most significant byte first. */
  lemma DecodeIsBigEndian(a: Byte, b: Byte, c: Byte, d: Byte)
    ensures Decode([a, b, c, d]) == ((a as int * 256 + b as int) * 256 + c as int) * 256 + d as int
  {
    assert [a, b, c, d][..3] == [a, b, c] && [a, b, c][..2] == [a, b] && [a, b][..1] == [a] && [a][..0] == [];
    assert Decode([a]) == a as int;
    assert Decode([a, b]) == a as int * 256 + b as int;
    assert Decode([a, b, c]) == (a as int * 256 + b as int) * 256 + c as int;
  }

  lemma {:induction false} DecodeEncode(value: nat, width: nat)
    requires value < Power(width)
    ensures Decode(Encode(value, width)) == value
    decreases width
  {
    if width > 0 {
      DecodeEncode(value / 256, width - 1);
      assert Encode(value, width)[..width - 1] == Encode(value / 256, width - 1);
    }
  }

  lemma {:induction false} DecodeBound(bytes: seq<Byte>)
    ensures Decode(bytes) < Power(|bytes|)
    decreases |bytes|
  {
    if bytes != [] {
      DecodeBound(bytes[..|bytes| - 1]);
    }
  }

  lemma Powers()
    ensures Power(4) == TWO_32 && Power(8) == TWO_64
  {
    assert Power(3) == 16777216;
    assert Power(5) == 1099511627776;
    assert Power(6) == 281474976710656;
    assert Power(7) == 72057594037927936;
  }

  /** Go's conversions between int64 and uint64. */
  function ToUnsigned(t: Int64): (u: nat)
    ensures u < TWO_64
  {
    if t < 0 then t + TWO_64 else t
  }

  function ToSigned(u: nat): Int64
    requires u < TWO_64
  {
    if u < 0x8000_0000_0000_0000 then u else u - TWO_64
  }

  // ---------- Where a header is ----------

  predicate MagicAt(packet: seq<Byte>, i: nat) {
    i + 4 <= |packet| && packet[i..i + 4] == MAGIC
  }

  predicate HeaderAt(packet: seq<Byte>, runID: Word32, i: nat) {
    i + HEADER_SIZE <= |packet| && MagicAt(packet, i) && Decode(packet[i + 4..i + 8]) == runID
  }

  function StampAt(packet: seq<Byte>, i: nat): Stamp
    requires i + HEADER_SIZE <= |packet|
  {
    Powers();
    DecodeBound(packet[i + 8..i + 12]);
    DecodeBound(packet[i + 12..i + 20]);
    Stamp(Decode(packet[i + 8..i + 12]), ToSigned(Decode(packet[i + 12..i + 20])))
  }

  /** The naive search: the first offset that holds a header of this run. */
  ghost predicate FirstHeader(packet: seq<Byte>, runID: Word32, i: nat) {
    HeaderAt(packet, runID, i) && forall j :: 0 <= j < i ==> !HeaderAt(packet, runID, j)
  }

  /** The magic does not overlap itself, so the scan may jump over a whole magic. */
  lemma NoSelfOverlap(packet: seq<Byte>, i: nat, j: nat)
    requires MagicAt(packet, i) && i < j < i + 4
    ensures !MagicAt(packet, j)
  {
    assert packet[i..i + 4][j - i] == MAGIC[j - i];
    assert j + 4 <= |packet| ==> packet[j..j + 4][0] == packet[j];
  }

  /** bytes.Index of the magic from an offset on. */
  method IndexMagic(packet: seq<Byte>, offset: nat) returns (r: Option<nat>)
    requires offset <= |packet|
    ensures r.None? ==> forall j :: offset <= j ==> !MagicAt(packet, j)
    ensures r.Some? ==> offset <= r.value && MagicAt(packet, r.value) && forall j :: offset <= j < r.value ==> !MagicAt(packet, j)
  {
    var i := offset;
    while i + 4 <= |packet|
      invariant offset <= i
      invariant forall j :: offset <= j < i ==> !MagicAt(packet, j)
    {
      if packet[i..i + 4] == MAGIC {
        return Some(i);
      }
      i := i + 1;
    }
    return None;
  }

  /** decodeHeader: its jumping scan finds what the naive search finds. */
  method DecodeHeader(packet: seq<Byte>, runID: Word32) returns (r: Option<Stamp>)
    ensures r.None? <==> forall i: nat :: !HeaderAt(packet, runID, i)
    ensures r.Some? ==> exists i: nat :: FirstHeader(packet, runID, i) && r.value == StampAt(packet, i)
  {
    var offset := 0;
    while offset + HEADER_SIZE <= |packet|
      invariant forall j :: 0 <= j < offset ==> !HeaderAt(packet, runID, j)
      decreases |packet| - offset
    {
      var found := IndexMagic(packet, offset);
      if found.None? {
        return None;
      }
      var index := found.value;
      if index + HEADER_SIZE <= |packet| && Decode(packet[index + 4..index + 8]) == runID {
        assert FirstHeader(packet, runID, index);
        return Some(StampAt(packet, index));
      }
      forall j | index < j < index + 4 ensures !HeaderAt(packet, runID, j) {
        NoSelfOverlap(packet, index, j);
      }
      offset := index + 4;
    }
    return None;
  }

  // ---------- Round trip ----------

  function HeaderBytes(runID: Word32, stamp: Stamp): (bytes: seq<Byte>)
    ensures |bytes| == 20 && bytes[..4] == [67, 77, 66, 49]
  {
    MAGIC + Encode(runID, 4) + Encode(stamp.sequence, 4) + Encode(ToUnsigned(stamp.sentAt), 8)
  }

  /** encodeHeader: writes the header over the first twenty bytes and touches nothing else. */
  method EncodeHeader(packet: array<Byte>, runID: Word32, stamp: Stamp)
    requires packet.Length >= HEADER_SIZE
    modifies packet
    ensures packet[..] == HeaderBytes(runID, stamp) + old(packet[HEADER_SIZE..])
  {
    var bytes := HeaderBytes(runID, stamp);
    for i := 0 to HEADER_SIZE
      invariant forall k :: 0 <= k < i ==> packet[k] == bytes[k]
      invariant forall k :: i <= k < packet.Length ==> packet[k] == old(packet[k])
    {
      packet[i] := bytes[i];
    }
  }

  lemma HeaderReadsBack(prefix: seq<Byte>, runID: Word32, stamp: Stamp, suffix: seq<Byte>)
    ensures var packet := prefix + HeaderBytes(runID, stamp) + suffix;
            HeaderAt(packet, runID, |prefix|) && StampAt(packet, |prefix|) == stamp
  {
    var packet, n := prefix + HeaderBytes(runID, stamp) + suffix, |prefix|;
    assert packet[n..n + 4] == MAGIC;
    assert packet[n + 4..n + 8] == Encode(runID, 4);
    assert packet[n + 8..n + 12] == Encode(stamp.sequence, 4);
    assert packet[n + 12..n + 20] == Encode(ToUnsigned(stamp.sentAt), 8);
    Powers();
    DecodeEncode(runID, 4);
    DecodeEncode(stamp.sequence, 4);
    DecodeEncode(ToUnsigned(stamp.sentAt), 8);
  }

  /** An encoded header behind any prefix in which no earlier match begins decodes to what was sent. */
  method RoundTrip(prefix: seq<Byte>, runID: Word32, stamp: Stamp, suffix: seq<Byte>) returns (r: Option<Stamp>)
    requires forall j: nat :: j < |prefix| ==> !HeaderAt(prefix + HeaderBytes(runID, stamp) + suffix, runID, j)
    ensures r == Some(stamp)
  {
    var packet := prefix + HeaderBytes(runID, stamp) + suffix;
    HeaderReadsBack(prefix, runID, stamp, suffix);
    hide HeaderAt, StampAt;
    r := DecodeHeader(packet, runID);
    ghost var i: nat :| FirstHeader(packet, runID, i) && r.value == StampAt(packet, i);
    assert i == |prefix|;
  }
}
