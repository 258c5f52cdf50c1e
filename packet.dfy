/** The radio packet buffer: a fixed 256-byte frame (the largest LoRa
    payload) whose first ten bytes are a header of five big-endian 16-bit
    fields, followed by a payload written through a cursor. */
module Packets {

  /** An 8-bit byte and an unsigned 16-bit word. */
  type byte = x: int | 0 <= x < 0x100
  type u16 = x: int | 0 <= x < 0x1_0000

  /** Size of the fixed buffer. */
  const Capacity: nat := 256

  /** Length of the version-1 header: five 16-bit fields. */
  const HeaderLen: nat := 10

  const CurrentVersion: u16 := 1

  /** Byte offsets of the header fields, as the setters use them. */
  const DeviceIdOffset: nat := 0
  const NetworkIdOffset: nat := 2
  const VersionOffset: nat := 4
  const AlertsOffset: nat := 6
  const TypeOffset: nat := 8

  /** Alert flags: a 16-bit set of independent bits. */
  type Alerts = bv16
  const AlertNone: Alerts := 0
  const AlertBattLow: Alerts := 1 << 1
  const AlertBattCritical: Alerts := 1 << 2

  type PacketType = u16
  const TypeAnnounce: PacketType := 0x0000
  const TypeSensorReport: PacketType := 0x0001
  const TypeConfigureDevice: PacketType := 0x8000

  /** The alert constants are distinct single bits (`1 << iota` from iota 1). */
  lemma AlertBits()
    ensures AlertNone == 0 && AlertBattLow == 2 && AlertBattCritical == 4
    ensures AlertBattLow & AlertBattCritical == 0
  {
  }

  /** Sequence concatenation regroups freely. */
  lemma AppendAssoc<T>(a: seq<T>, b: seq<T>, c: seq<T>)
    ensures (a + b) + c == a + (b + c)
  {
  }

  /** Writes `v` big-endian (high byte first) at `off`. */
  function PutU16(s: seq<byte>, off: nat, v: u16): (r: seq<byte>)
    requires off + 2 <= |s|
    ensures |r| == |s|
    ensures r[off] == v / 256 && r[off + 1] == v % 256
    ensures forall i | 0 <= i < |s| && i != off && i != off + 1 :: r[i] == s[i]
  {
    s[off := v / 256][off + 1 := v % 256]
  }

  /** Reads a big-endian 16-bit value at `off`. */
  function GetU16(s: seq<byte>, off: nat): (v: u16)
    requires off + 2 <= |s|
    ensures v / 256 == s[off] && v % 256 == s[off + 1]
  {
    (s[off] as int) * 256 + (s[off + 1] as int)
  }

  /** Reading a field back returns exactly what was written there. */
  lemma GetPutU16(s: seq<byte>, off: nat, v: u16)
    requires off + 2 <= |s|
    ensures GetU16(PutU16(s, off, v), off) == v
  {
  }

  /** Writing one 16-bit slot leaves every disjoint slot readable as before. */
  lemma GetPutU16Other(s: seq<byte>, off: nat, v: u16, other: nat)
    requires off + 2 <= |s| && other + 2 <= |s|
    requires other + 2 <= off || off + 2 <= other
    ensures GetU16(PutU16(s, off, v), other) == GetU16(s, other)
  {
  }

  /** Writes to disjoint 16-bit slots commute. */
  lemma PutU16Commute(s: seq<byte>, a: nat, x: u16, b: nat, y: u16)
    requires a + 2 <= |s| && b + 2 <= |s|
    requires a + 2 <= b || b + 2 <= a
    ensures PutU16(PutU16(s, a, x), b, y) == PutU16(PutU16(s, b, y), a, x)
  {
    var l := PutU16(PutU16(s, a, x), b, y);
    var r := PutU16(PutU16(s, b, y), a, x);
    assert |l| == |r|;
    forall i | 0 <= i < |l|
      ensures l[i] == r[i]
    {
    }
  }

  /** The offsets of the five header fields. */
  predicate IsHeaderField(off: nat) {
    off == DeviceIdOffset || off == NetworkIdOffset || off == VersionOffset
    || off == AlertsOffset || off == TypeOffset
  }

  /** The header fields occupy disjoint byte pairs inside bytes 0..9. */
  lemma HeaderFieldsDisjoint(a: nat, b: nat)
    requires IsHeaderField(a) && IsHeaderField(b) && a != b
    ensures a + 2 <= HeaderLen && b + 2 <= HeaderLen
    ensures a + 2 <= b || b + 2 <= a
  {
  }

  // ---------------------------------------------------------------------
  // The packet as a value: the buffer, the cursor and the logical length.
  // ---------------------------------------------------------------------

  datatype PacketState = PacketState(data: seq<byte>, ptr: nat, len: nat)

  predicate WellFormed(p: PacketState) {
    |p.data| == Capacity && p.ptr <= Capacity && p.len <= Capacity
  }

  /** The zero value of a packet: all bytes zero, cursor and length zero. */
  function Zeroed(): (p: PacketState)
    ensures WellFormed(p)
  {
    PacketState(seq(Capacity, _ => 0), 0, 0)
  }

  /** The bytes a frame is made of: the prefix up to the logical length. */
  function FrameOf(p: PacketState): seq<byte>
    requires WellFormed(p)
  {
    p.data[..p.len]
  }

  /** Where a payload write lands: the cursor, clamped forward past the header. */
  function WriteStart(p: PacketState): nat {
    if p.ptr < HeaderLen then HeaderLen else p.ptr
  }

  /** Sets one header field; neither the cursor nor the length moves. */
  function SetField(p: PacketState, off: nat, v: u16): (r: PacketState)
    requires WellFormed(p) && IsHeaderField(off)
    ensures WellFormed(r) && r.ptr == p.ptr && r.len == p.len
    ensures GetU16(r.data, off) == v
    ensures forall i | 0 <= i < Capacity && i != off && i != off + 1 :: r.data[i] == p.data[i]
  {
    p.(data := PutU16(p.data, off, v))
  }

  /** One payload write: big-endian at the clamped cursor, cursor advanced by
      two, length set to the new cursor. */
  function Write(p: PacketState, v: u16): (r: PacketState)
    requires WellFormed(p) && WriteStart(p) + 2 <= Capacity
    ensures WellFormed(r)
    ensures r.ptr == WriteStart(p) + 2 && r.len == r.ptr
    ensures GetU16(r.data, WriteStart(p)) == v
    ensures forall i | 0 <= i < Capacity && (i < WriteStart(p) || i >= r.ptr) :: r.data[i] == p.data[i]
  {
    var at := WriteStart(p);
    PacketState(PutU16(p.data, at, v), at + 2, at + 2)
  }

  /** Payload writes never touch the header bytes 0..9. */
  lemma WriteKeepsHeader(p: PacketState, v: u16)
    requires WellFormed(p) && WriteStart(p) + 2 <= Capacity
    ensures Write(p, v).data[..HeaderLen] == p.data[..HeaderLen]
  {
  }

  /** Setting a header field before or after a payload write gives the same packet. */
  lemma SetFieldCommutesWithWrite(p: PacketState, off: nat, x: u16, v: u16)
    requires WellFormed(p) && IsHeaderField(off) && WriteStart(p) + 2 <= Capacity
    ensures SetField(Write(p, v), off, x) == Write(SetField(p, off, x), v)
  {
    PutU16Commute(p.data, off, x, WriteStart(p), v);
  }

  /** Setting one header field never disturbs another. */
  lemma SetFieldKeepsOtherFields(p: PacketState, a: nat, x: u16, b: nat)
    requires WellFormed(p) && IsHeaderField(a) && IsHeaderField(b) && a != b
    ensures GetU16(SetField(p, a, x).data, b) == GetU16(p.data, b)
  {
    HeaderFieldsDisjoint(a, b);
    GetPutU16Other(p.data, a, x, b);
  }

  /** Two header setters applied in either order give the same packet. */
  lemma SetFieldsCommute(p: PacketState, a: nat, x: u16, b: nat, y: u16)
    requires WellFormed(p) && IsHeaderField(a) && IsHeaderField(b) && a != b
    ensures SetField(SetField(p, a, x), b, y) == SetField(SetField(p, b, y), a, x)
  {
    HeaderFieldsDisjoint(a, b);
    PutU16Commute(p.data, a, x, b, y);
  }

  /** The big-endian encoding of a sequence of 16-bit values. */
  function Encode(vs: seq<u16>): (r: seq<byte>)
    ensures |r| == 2 * |vs|
  {
    if vs == [] then [] else [vs[0] / 256, vs[0] % 256] + Encode(vs[1..])
  }

  /** The used prefix of the buffer: the bytes up to the cursor. */
  function UsedBytes(p: PacketState): (b: seq<byte>)
    requires WellFormed(p)
    ensures |b| == p.ptr && (p.ptr == p.len ==> b == FrameOf(p))
  {
    p.data[..p.ptr]
  }

  /** A sequence of payload writes, in order. */
  function WriteAll(p: PacketState, vs: seq<u16>): (r: PacketState)
    requires WellFormed(p) && WriteStart(p) + 2 * |vs| <= Capacity
    ensures WellFormed(r)
    decreases |vs|
  {
    if vs == [] then p else WriteAll(Write(p, vs[0]), vs[1..])
  }

  /** Once the cursor is past the header and the length equals the cursor,
      further writes append their encoding to the used bytes. */
  lemma {:induction false} WriteAllAppends(p: PacketState, vs: seq<u16>)
    requires WellFormed(p) && HeaderLen <= p.ptr && p.len == p.ptr && p.ptr + 2 * |vs| <= Capacity
    ensures var r := WriteAll(p, vs);
      r.ptr == r.len == p.ptr + 2 * |vs| && r.data[..r.ptr] == p.data[..p.ptr] + Encode(vs)
    decreases |vs|
  {
    if vs != [] {
      var q := Write(p, vs[0]);
      assert q.data[..q.ptr] == p.data[..p.ptr] + [vs[0] / 256, vs[0] % 256];
      WriteAllAppends(q, vs[1..]);
      assert Encode(vs) == [vs[0] / 256, vs[0] % 256] + Encode(vs[1..]);
    }
  }

  /** From a zeroed packet, n > 0 writes make the frame 10 + 2n bytes long:
      ten zero header bytes followed by the written values in order. */
  lemma {:induction false} WriteAllFromZeroed(vs: seq<u16>)
    requires 0 < |vs| && HeaderLen + 2 * |vs| <= Capacity
    ensures var r := WriteAll(Zeroed(), vs);
      |r.data[..r.ptr]| == HeaderLen + 2 * |vs| && r.len == r.ptr
      && r.data[..r.ptr] == seq(HeaderLen, _ => 0) + Encode(vs)
  {
    var q := Write(Zeroed(), vs[0]);
    assert q.data[..q.ptr] == seq(HeaderLen, _ => 0) + [vs[0] / 256, vs[0] % 256];
    WriteAllAppends(q, vs[1..]);
    assert Encode(vs) == [vs[0] / 256, vs[0] % 256] + Encode(vs[1..]);
  }

  // ---------------------------------------------------------------------
  // The packet object: the buffer and cursor updated in place.
  // ---------------------------------------------------------------------

  class Packet {
    const data: array<byte>
    var ptr: nat
    var len: nat

    ghost predicate Valid()
      reads this
    {
      data.Length == Capacity && ptr <= Capacity && len <= Capacity
    }

    /** The packet's current value. */
    ghost function State(): (s: PacketState)
      reads this, data
      requires Valid()
      ensures WellFormed(s)
    {
      PacketState(data[..], ptr, len)
    }

    /** The frame as the scanners see it: bytes 0 up to the logical length. */
    ghost function Frame(): seq<byte>
      reads this, data
      requires Valid()
    {
      FrameOf(State())
    }

    /** A zero-valued packet. */
    constructor ()
      ensures Valid() && fresh(data) && State() == Zeroed()
    {
      data := new byte[Capacity](_ => 0);
      ptr, len := 0, 0;
    }

    method PutField(off: nat, v: u16)
      requires Valid() && IsHeaderField(off)
      modifies data
      ensures Valid() && State() == SetField(old(State()), off, v)
    {
      data[off] := v / 256;
      data[off + 1] := v % 256;
    }

    method SetDeviceID(device: u16)
      requires Valid()
      modifies data
      ensures Valid() && State() == SetField(old(State()), DeviceIdOffset, device)
    {
      PutField(DeviceIdOffset, device);
    }

    method SetNetworkID(network: u16)
      requires Valid()
      modifies data
      ensures Valid() && State() == SetField(old(State()), NetworkIdOffset, network)
    {
      PutField(NetworkIdOffset, network);
    }

    method SetVersion(version: u16)
      requires Valid()
      modifies data
      ensures Valid() && State() == SetField(old(State()), VersionOffset, version)
    {
      PutField(VersionOffset, version);
    }

    method SetAlerts(alerts: Alerts)
      requires Valid()
      modifies data
      ensures Valid() && State() == SetField(old(State()), AlertsOffset, alerts as int)
    {
      PutField(AlertsOffset, alerts as int);
    }

    method SetType(t: PacketType)
      requires Valid()
      modifies data
      ensures Valid() && State() == SetField(old(State()), TypeOffset, t)
    {
      PutField(TypeOffset, t);
    }

    /** Appends one payload value. The cursor is first clamped forward to the
        end of the header; the slot must fit in the buffer. */
    method WriteUint16(v: u16)
      requires Valid() && WriteStart(State()) + 2 <= Capacity
      modifies this, data
      ensures Valid() && State() == Write(old(State()), v)
    {
      if ptr < HeaderLen {
        ptr := HeaderLen;
      }
      data[ptr] := v / 256;
      data[ptr + 1] := v % 256;
      ptr := ptr + 2;
      len := ptr;
    }

    /** Reads one big-endian value at the cursor and advances it by two. */
    method ReadUint16() returns (v: u16)
      requires Valid() && ptr + 2 <= Capacity
      modifies this
      ensures Valid() && ptr == old(ptr) + 2 && len == old(len)
      ensures v == GetU16(data[..], old(ptr))
    {
      v := (data[ptr] as int) * 256 + (data[ptr + 1] as int);
      ptr := ptr + 2;
    }

    /** Advances the cursor by `n` bytes without reading them. */
    method Skip(n: nat)
      requires Valid() && ptr + n <= Capacity
      modifies this
      ensures Valid() && ptr == old(ptr) + n && len == old(len)
    {
      ptr := ptr + n;
    }

    /** The number of unread bytes (negative once the cursor is past the length). */
    function Remaining(): int
      reads this
    {
      len - ptr
    }

    /** The version-gated checksum. A version-1 frame has no CRC slot, so
        for it nothing changes. */
    method UpdateCRC()
      requires Valid()
      modifies data
      ensures Valid()
      ensures GetU16(old(data[..]), VersionOffset) < 2 ==> data[..] == old(data[..])
    {
    }

    /** The used prefix of the buffer, up to the cursor. */
    function AsBytes(): (b: seq<byte>)
      reads this, data
      requires Valid()
      ensures |b| == ptr && forall i | 0 <= i < ptr :: b[i] == data[i]
      ensures b == UsedBytes(State())
      ensures ptr == len ==> b == Frame()
    {
      data[..ptr]
    }
  }
}
