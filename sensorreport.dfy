/** A sensor report: a typed view over a packet whose payload, right after
    the header, is a sequence of (kind, value) pairs of 16-bit big-endian
    words. There is no count field; the number of pairs follows from the
    logical length, and a trailing partial pair is ignored. */
module SensorReports {
  import opened Packets
  import opened Sensors

  /** One decoded pair: the stored 16-bit kind and its value. */
  datatype Reading = Reading(kind: u16, value: u16)

  /** The conversion of a stored 16-bit kind to the 8-bit `SensorType`
      keeps only the low byte. */
  function Narrow(kind: u16): (t: SensorType)
    ensures kind < 0x100 ==> t == kind
    ensures kind >= 0x100 ==> t == kind - 0x100 * (kind / 0x100)
  {
    kind % 0x100
  }

  // ---------------------------------------------------------------------
  // Decoding: what the scanners read out of a frame.
  // ---------------------------------------------------------------------

  /** The number of complete pairs after the header. */
  function PairCount(frame: seq<byte>): (n: nat)
    ensures |frame| < HeaderLen ==> n == 0
    ensures HeaderLen <= |frame| ==> HeaderLen + 4 * n <= |frame| < HeaderLen + 4 * n + 4
  {
    if |frame| < HeaderLen then 0 else (|frame| - HeaderLen) / 4
  }

  /** The k-th pair, at byte HeaderLen + 4k. */
  function ReadingAt(frame: seq<byte>, k: nat): Reading
    requires k < PairCount(frame)
  {
    Reading(GetU16(frame, HeaderLen + 4 * k), GetU16(frame, HeaderLen + 4 * k + 2))
  }

  /** The pairs of a frame, in order. */
  function Readings(frame: seq<byte>): (rs: seq<Reading>)
    ensures |rs| == PairCount(frame)
    ensures forall k | 0 <= k < |rs| :: rs[k] == ReadingAt(frame, k)
  {
    seq(PairCount(frame), k requires 0 <= k < PairCount(frame) => ReadingAt(frame, k))
  }

  /** With the cursor at pair k, at least four bytes remain exactly when
      pair k is complete, and the cursor then points at that pair. */
  lemma ScanCursor(frame: seq<byte>, data: seq<byte>, k: nat)
    requires |frame| <= |data| && frame == data[..|frame|]
    ensures |frame| - (HeaderLen + 4 * k) >= 4 <==> k < |Readings(frame)|
    ensures k < |Readings(frame)| ==>
      Readings(frame)[k] == Reading(GetU16(data, HeaderLen + 4 * k), GetU16(data, HeaderLen + 4 * k + 2))
  {
    if k < |Readings(frame)| {
      var at := HeaderLen + 4 * k;
      assert frame[at] == data[at] && frame[at + 1] == data[at + 1];
      assert frame[at + 2] == data[at + 2] && frame[at + 3] == data[at + 3];
    }
  }

  /** Some pair has (narrowed) kind `t`. */
  predicate HasKind(rs: seq<Reading>, t: SensorType) {
    exists j | 0 <= j < |rs| :: Narrow(rs[j].kind) == t
  }

  /** The index of the first pair of kind `t`, or |rs| when there is none. */
  function FirstIndexOf(rs: seq<Reading>, t: SensorType): (i: nat)
    ensures i <= |rs|
    ensures forall j | 0 <= j < i :: Narrow(rs[j].kind) != t
    ensures i < |rs| ==> Narrow(rs[i].kind) == t
    ensures i < |rs| <==> HasKind(rs, t)
    decreases |rs|
  {
    if rs == [] then 0
    else if Narrow(rs[0].kind) == t then 0
    else 1 + FirstIndexOf(rs[1..], t)
  }

  /** The index of the last pair of kind `t`, or -1 when there is none. */
  function LastIndexOf(rs: seq<Reading>, t: SensorType): (i: int)
    ensures -1 <= i < |rs|
    ensures 0 <= i ==> Narrow(rs[i].kind) == t
    ensures forall j | i < j < |rs| :: Narrow(rs[j].kind) != t
    ensures 0 <= i <==> HasKind(rs, t)
    decreases |rs|
  {
    if rs == [] then -1
    else if Narrow(rs[|rs| - 1].kind) == t then |rs| - 1
    else
      var i := LastIndexOf(rs[..|rs| - 1], t);
      assert forall j | 0 <= j < |rs| - 1 :: rs[..|rs| - 1][j] == rs[j];
      i
  }

  /** The value of the first pair of kind `t`, or `def` when there is none. */
  function FirstValue(rs: seq<Reading>, t: SensorType, def: u16): (v: u16)
    ensures !HasKind(rs, t) ==> v == def
    ensures HasKind(rs, t) ==>
      exists i | 0 <= i < |rs| :: Narrow(rs[i].kind) == t && v == rs[i].value
        && forall j | 0 <= j < i :: Narrow(rs[j].kind) != t
  {
    var i := FirstIndexOf(rs, t);
    if i < |rs| then rs[i].value else def
  }

  /** The map a full scan builds: each pair in turn overwrites the entry
      for its narrowed kind. */
  function ReadingsMap(rs: seq<Reading>): map<SensorType, u16>
    decreases |rs|
  {
    if rs == [] then map[]
    else ReadingsMap(rs[..|rs| - 1])[Narrow(rs[|rs| - 1].kind) := rs[|rs| - 1].value]
  }

  /** The full scan maps exactly the kinds present, each to the value of its
      LAST occurrence. */
  lemma {:induction false} ReadingsMapLast(rs: seq<Reading>)
    ensures forall t :: t in ReadingsMap(rs) <==> HasKind(rs, t)
    ensures forall t | t in ReadingsMap(rs) :: ReadingsMap(rs)[t] == rs[LastIndexOf(rs, t)].value
    decreases |rs|
  {
    if rs != [] {
      var init := rs[..|rs| - 1];
      ReadingsMapLast(init);
      assert forall j | 0 <= j < |init| :: init[j] == rs[j];
      assert forall t :: HasKind(rs, t) <==> HasKind(init, t) || Narrow(rs[|rs| - 1].kind) == t;
    }
  }

  /** Extending the scanned prefix by one pair overwrites that pair's key. */
  lemma MapOfLongerPrefix(rs: seq<Reading>, k: nat)
    requires k < |rs|
    ensures ReadingsMap(rs[..k + 1]) == ReadingsMap(rs[..k])[Narrow(rs[k].kind) := rs[k].value]
  {
    assert rs[..k + 1][..k] == rs[..k];
  }

  /** A lookup returns the first occurrence of a kind, a full scan the last:
      on a payload holding kind 0 twice the two disagree. */
  lemma FirstAndLastOccurrenceDiffer()
    ensures var rs := [Reading(0, 1), Reading(0, 2)];
      FirstValue(rs, 0, 9) == 1 && ReadingsMap(rs) == map[0 := 2]
  {
    var rs := [Reading(0, 1), Reading(0, 2)];
    assert FirstIndexOf(rs, 0) == 0;
    assert LastIndexOf(rs, 0) == 1;
    assert HasKind(rs, 0);
  }

  /** Only the low byte of a stored kind takes part in a lookup: two
      payloads whose kinds agree in their low bytes answer alike. */
  lemma LookupSeesOnlyLowByte(rs: seq<Reading>, qs: seq<Reading>, t: SensorType, def: u16)
    requires |rs| == |qs|
    requires forall i | 0 <= i < |rs| :: Narrow(rs[i].kind) == Narrow(qs[i].kind) && rs[i].value == qs[i].value
    ensures HasKind(rs, t) == HasKind(qs, t)
    ensures FirstValue(rs, t, def) == FirstValue(qs, t, def)
  {
    var i, k := FirstIndexOf(rs, t), FirstIndexOf(qs, t);
    assert k < |qs| ==> Narrow(rs[k].kind) == t;
    assert i < |rs| ==> Narrow(qs[i].kind) == t;
  }

  /** Only the low byte of a stored kind takes part in a full scan. */
  lemma {:induction false} ScanSeesOnlyLowByte(rs: seq<Reading>, qs: seq<Reading>)
    requires |rs| == |qs|
    requires forall i | 0 <= i < |rs| :: Narrow(rs[i].kind) == Narrow(qs[i].kind) && rs[i].value == qs[i].value
    ensures ReadingsMap(rs) == ReadingsMap(qs)
    decreases |rs|
  {
    if rs != [] {
      var n := |rs| - 1;
      ScanSeesOnlyLowByte(rs[..n], qs[..n]);
    }
  }

  /** A payload that ends in a partial pair decodes like the payload without it. */
  lemma TrailingPartialPairIgnored(frame: seq<byte>, extra: seq<byte>)
    requires HeaderLen <= |frame| && (|frame| - HeaderLen) % 4 == 0 && |extra| < 4
    ensures Readings(frame + extra) == Readings(frame)
  {
    var l, r := Readings(frame + extra), Readings(frame);
    assert |l| == |r|;
    forall k | 0 <= k < |l| ensures l[k] == r[k] {
      assert (frame + extra)[HeaderLen + 4 * k] == frame[HeaderLen + 4 * k];
      assert (frame + extra)[HeaderLen + 4 * k + 1] == frame[HeaderLen + 4 * k + 1];
      assert (frame + extra)[HeaderLen + 4 * k + 2] == frame[HeaderLen + 4 * k + 2];
      assert (frame + extra)[HeaderLen + 4 * k + 3] == frame[HeaderLen + 4 * k + 3];
    }
  }

  /** A frame with no complete pair reports nothing: every lookup fails,
      every getter gives its default and the full scan is empty. */
  lemma EmptyPayload(frame: seq<byte>, t: SensorType, def: u16)
    requires |frame| < HeaderLen + 4
    ensures !HasKind(Readings(frame), t)
    ensures FirstValue(Readings(frame), t, def) == def
    ensures ReadingsMap(Readings(frame)) == map[]
  {
  }

  // ---------------------------------------------------------------------
  // Encoding: what the Add* methods append.
  // ---------------------------------------------------------------------

  /** A packet to which a pair can be appended as a whole: written only,
      with a payload that is a whole number of pairs. */
  predicate Aligned(p: PacketState) {
    WellFormed(p) && p.ptr == p.len && (p.len < HeaderLen || (p.len - HeaderLen) % 4 == 0)
  }

  /** Appending one pair: two payload writes. */
  function Add(p: PacketState, kind: u16, v: u16): (r: PacketState)
    requires WellFormed(p) && WriteStart(p) + 4 <= Capacity
    ensures WellFormed(r) && r.ptr == r.len == WriteStart(p) + 4
    ensures r.data[..WriteStart(p)] == p.data[..WriteStart(p)]
    ensures GetU16(r.data, WriteStart(p)) == kind && GetU16(r.data, WriteStart(p) + 2) == v
  {
    var q := Write(p, kind);
    var r := Write(q, v);
    assert GetU16(r.data, WriteStart(p)) == GetU16(q.data, WriteStart(p));
    r
  }

  /** Each Add appends exactly one pair to the decoded payload, keeps the
      header and the earlier pairs, and leaves the packet aligned. */
  lemma AddAppends(p: PacketState, kind: u16, v: u16)
    requires Aligned(p) && WriteStart(p) + 4 <= Capacity
    ensures Aligned(Add(p, kind, v))
    ensures Add(p, kind, v).data[..HeaderLen] == p.data[..HeaderLen]
    ensures Readings(FrameOf(Add(p, kind, v))) == Readings(FrameOf(p)) + [Reading(kind, v)]
  {
    var q := Add(p, kind, v);
    var s, s' := FrameOf(p), FrameOf(q);
    var at := WriteStart(p);
    var n := PairCount(s);
    assert at == HeaderLen + 4 * n;
    assert PairCount(s') == n + 1;
    var rs, rs' := Readings(s), Readings(s');
    forall k | 0 <= k < n ensures rs'[k] == rs[k] {
      assert HeaderLen + 4 * k + 4 <= at;
      assert q.data[..at][HeaderLen + 4 * k] == p.data[..at][HeaderLen + 4 * k];
      assert q.data[..at][HeaderLen + 4 * k + 1] == p.data[..at][HeaderLen + 4 * k + 1];
      assert q.data[..at][HeaderLen + 4 * k + 2] == p.data[..at][HeaderLen + 4 * k + 2];
      assert q.data[..at][HeaderLen + 4 * k + 3] == p.data[..at][HeaderLen + 4 * k + 3];
    }
    assert GetU16(s', at) == GetU16(q.data, at);
    assert GetU16(s', at + 2) == GetU16(q.data, at + 2);
    assert rs'[n] == Reading(kind, v);
    assert rs' == rs + [Reading(kind, v)];
    assert q.data[..HeaderLen] == q.data[..at][..HeaderLen];
    assert p.data[..HeaderLen] == p.data[..at][..HeaderLen];
  }

  /** A sequence of Add calls, in order. */
  function AddAll(p: PacketState, rs: seq<Reading>): (r: PacketState)
    requires WellFormed(p) && WriteStart(p) + 4 * |rs| <= Capacity
    ensures WellFormed(r)
    decreases |rs|
  {
    if rs == [] then p else AddAll(Add(p, rs[0].kind, rs[0].value), rs[1..])
  }

  lemma {:induction false} AddAllAppends(p: PacketState, rs: seq<Reading>)
    requires Aligned(p) && WriteStart(p) + 4 * |rs| <= Capacity
    ensures Aligned(AddAll(p, rs))
    ensures Readings(FrameOf(AddAll(p, rs))) == Readings(FrameOf(p)) + rs
    decreases |rs|
  {
    if rs != [] {
      var q := Add(p, rs[0].kind, rs[0].value);
      AddAppends(p, rs[0].kind, rs[0].value);
      AddAllAppends(q, rs[1..]);
      assert AddAll(p, rs) == AddAll(q, rs[1..]);
      HeadThenTail(Readings(FrameOf(p)), rs);
    }
  }

  /** Appending the head and then the tail appends the whole sequence. */
  lemma HeadThenTail<T>(a: seq<T>, s: seq<T>)
    requires s != []
    ensures (a + [s[0]]) + s[1..] == a + s
  {
    assert [s[0]] + s[1..] == s;
  }

  /** Round trip: the pairs appended to a zeroed packet are exactly the pairs
      a scan decodes, in order. */
  lemma ReportRoundTrip(rs: seq<Reading>)
    requires HeaderLen + 4 * |rs| <= Capacity
    ensures Readings(FrameOf(AddAll(Zeroed(), rs))) == rs
  {
    AddAllAppends(Zeroed(), rs);
  }

  /** Pairwise distinct narrowed kinds. */
  predicate DistinctKinds(rs: seq<Reading>) {
    forall i, j | 0 <= i < j < |rs| :: Narrow(rs[i].kind) != Narrow(rs[j].kind)
  }

  /** With distinct kinds, the first and the last occurrence of a kind coincide. */
  lemma DistinctKindsLookup(rs: seq<Reading>, i: nat)
    requires DistinctKinds(rs) && i < |rs|
    ensures FirstIndexOf(rs, Narrow(rs[i].kind)) == i
    ensures LastIndexOf(rs, Narrow(rs[i].kind)) == i
  {
    assert HasKind(rs, Narrow(rs[i].kind));
  }

  /** With distinct kinds, the full scan maps exactly the kinds present to
      their values, and each lookup finds the value of its kind. */
  lemma DistinctKindsDecode(rs: seq<Reading>, def: u16)
    requires DistinctKinds(rs)
    ensures ReadingsMap(rs).Keys == (set i | 0 <= i < |rs| :: Narrow(rs[i].kind))
    ensures forall i | 0 <= i < |rs| :: ReadingsMap(rs)[Narrow(rs[i].kind)] == rs[i].value
    ensures forall i | 0 <= i < |rs| :: FirstValue(rs, Narrow(rs[i].kind), def) == rs[i].value
  {
    ReadingsMapLast(rs);
    forall t | t in ReadingsMap(rs) ensures t in (set i | 0 <= i < |rs| :: Narrow(rs[i].kind)) {
      var j := LastIndexOf(rs, t);
      assert Narrow(rs[j].kind) == t;
    }
    forall i | 0 <= i < |rs|
      ensures ReadingsMap(rs)[Narrow(rs[i].kind)] == rs[i].value
      ensures FirstValue(rs, Narrow(rs[i].kind), def) == rs[i].value
    {
      DistinctKindsLookup(rs, i);
    }
  }

  /** Round trip with distinct kinds: after adding the pairs to a zeroed
      packet, the full scan returns exactly the kind-to-value pairs added,
      and each lookup returns the value added for its kind. */
  lemma DistinctKindsRoundTrip(rs: seq<Reading>, def: u16)
    requires HeaderLen + 4 * |rs| <= Capacity && DistinctKinds(rs)
    ensures var got := Readings(FrameOf(AddAll(Zeroed(), rs)));
      && ReadingsMap(got).Keys == (set i | 0 <= i < |rs| :: Narrow(rs[i].kind))
      && (forall i | 0 <= i < |rs| :: ReadingsMap(got)[Narrow(rs[i].kind)] == rs[i].value)
      && (forall i | 0 <= i < |rs| :: FirstValue(got, Narrow(rs[i].kind), def) == rs[i].value)
  {
    ReportRoundTrip(rs);
    DistinctKindsDecode(rs, def);
  }

  // ---------------------------------------------------------------------
  // The report object over a shared packet.
  // ---------------------------------------------------------------------

  /** Where the cursor stops after a HasReadingType scan: just after the
      kind of the first match, or after the last complete pair. */
  function HasScanEnd(rs: seq<Reading>, t: SensorType): nat {
    var i := FirstIndexOf(rs, t);
    if i < |rs| then HeaderLen + 4 * i + 2 else HeaderLen + 4 * |rs|
  }

  /** Where the cursor stops after a GetReadingUint16 scan: just after the
      first matching pair, or after the last complete pair. */
  function GetScanEnd(rs: seq<Reading>, t: SensorType): nat {
    var i := FirstIndexOf(rs, t);
    if i < |rs| then HeaderLen + 4 * i + 4 else HeaderLen + 4 * |rs|
  }

  /** A scan that has passed k pairs without a match and then matches
      (or runs out) has found the first occurrence (or none). */
  lemma FirstMatchAt(rs: seq<Reading>, t: SensorType, k: nat)
    requires k <= |rs| && forall j | 0 <= j < k :: Narrow(rs[j].kind) != t
    requires k < |rs| ==> Narrow(rs[k].kind) == t
    ensures FirstIndexOf(rs, t) == k
  {
  }

  /** A has-test that finds its kind stops at least one value short of the
      end of the frame. */
  lemma HasScanEndInsideFrame(frame: seq<byte>, t: SensorType)
    requires HasKind(Readings(frame), t)
    ensures HasScanEnd(Readings(frame), t) + 2 <= |frame|
  {
    var i := FirstIndexOf(Readings(frame), t);
    assert HeaderLen + 4 * i + 4 <= HeaderLen + 4 * PairCount(frame) <= |frame|;
  }

  class SensorReport {
    var packet: Packets.Packet?

    /** A report not yet attached to a packet. */
    constructor ()
      ensures packet == null
    {
      packet := null;
    }

    method AttachPacket(p: Packets.Packet)
      modifies this
      ensures packet == p
    {
      packet := p;
    }

    method Packet() returns (p: Packets.Packet?)
      ensures p == packet
    {
      p := packet;
    }

    /** Appends the pair (kind, v): the method every Add<Kind> is made of. */
    method AddReading(kind: u16, v: u16)
      requires packet != null && packet.Valid() && WriteStart(packet.State()) + 4 <= Capacity
      modifies packet, packet.data
      ensures packet.Valid() && packet.State() == Add(old(packet.State()), kind, v)
    {
      packet.WriteUint16(kind);
      packet.WriteUint16(v);
    }

    method AddBatteryVoltage(milliVolts: u16)
      requires packet != null && packet.Valid() && WriteStart(packet.State()) + 4 <= Capacity
      modifies packet, packet.data
      ensures packet.Valid() && packet.State() == Add(old(packet.State()), SensorTypeBattVolts, milliVolts)
    {
      AddReading(SensorTypeBattVolts, milliVolts);
    }

    method AddTemperature(centiCelsius: u16)
      requires packet != null && packet.Valid() && WriteStart(packet.State()) + 4 <= Capacity
      modifies packet, packet.data
      ensures packet.Valid() && packet.State() == Add(old(packet.State()), SensorTypeTemperature, centiCelsius)
    {
      AddReading(SensorTypeTemperature, centiCelsius);
    }

    method AddHumidity(centiPercent: u16)
      requires packet != null && packet.Valid() && WriteStart(packet.State()) + 4 <= Capacity
      modifies packet, packet.data
      ensures packet.Valid() && packet.State() == Add(old(packet.State()), SensorTypeHumidity, centiPercent)
    {
      AddReading(SensorTypeHumidity, centiPercent);
    }

    method AddPressure(dekaPascal: u16)
      requires packet != null && packet.Valid() && WriteStart(packet.State()) + 4 <= Capacity
      modifies packet, packet.data
      ensures packet.Valid() && packet.State() == Add(old(packet.State()), SensorTypePressure, dekaPascal)
    {
      AddReading(SensorTypePressure, dekaPascal);
    }

    method AddSupplyVoltage(milliVolts: u16)
      requires packet != null && packet.Valid() && WriteStart(packet.State()) + 4 <= Capacity
      modifies packet, packet.data
      ensures packet.Valid() && packet.State() == Add(old(packet.State()), SensorTypeSupplyVolts, milliVolts)
    {
      AddReading(SensorTypeSupplyVolts, milliVolts);
    }

    method AddLoadPower(deciVolts: u16)
      requires packet != null && packet.Valid() && WriteStart(packet.State()) + 4 <= Capacity
      modifies packet, packet.data
      ensures packet.Valid() && packet.State() == Add(old(packet.State()), SensorTypeLoadPower, deciVolts)
    {
      AddReading(SensorTypeLoadPower, deciVolts);
    }

    method AddCoils(coils: u16)
      requires packet != null && packet.Valid() && WriteStart(packet.State()) + 4 <= Capacity
      modifies packet, packet.data
      ensures packet.Valid() && packet.State() == Add(old(packet.State()), SensorTypeCoils, coils)
    {
      AddReading(SensorTypeCoils, coils);
    }

    /** Scans the whole payload into a map from kind to value. */
    method AllReadings() returns (result: map<SensorType, u16>)
      requires packet != null && packet.Valid()
      modifies packet
      ensures packet.Valid() && packet.len == old(packet.len) && packet.Frame() == old(packet.Frame())
      ensures result == ReadingsMap(Readings(packet.Frame()))
      ensures packet.ptr == HeaderLen + 4 * |Readings(packet.Frame())|
    {
      ghost var frame := packet.Frame();
      ghost var rs := Readings(frame);
      result := map[];
      packet.ptr := HeaderLen;
      ghost var k := 0;
      while packet.Remaining() >= 4
        invariant packet.Valid() && packet.len == old(packet.len) && packet.data[..packet.len] == frame
        invariant 0 <= k <= |rs| && packet.ptr == HeaderLen + 4 * k
        invariant result == ReadingsMap(rs[..k])
        decreases |rs| - k
      {
        ScanCursor(frame, packet.data[..], k);
        var fieldType := packet.ReadUint16();
        var fieldValue := packet.ReadUint16();
        result := result[Narrow(fieldType) := fieldValue];
        MapOfLongerPrefix(rs, k);
        k := k + 1;
      }
      ScanCursor(frame, packet.data[..], k);
      assert rs[..k] == rs;
    }

    /** Whether some complete pair has kind `t`. */
    method HasReadingType(t: SensorType) returns (found: bool)
      requires packet != null && packet.Valid()
      modifies packet
      ensures packet.Valid() && packet.len == old(packet.len) && packet.Frame() == old(packet.Frame())
      ensures found == HasKind(Readings(packet.Frame()), t)
      ensures packet.ptr == HasScanEnd(Readings(packet.Frame()), t)
    {
      ghost var frame := packet.Frame();
      ghost var rs := Readings(frame);
      packet.ptr := HeaderLen;
      ghost var k := 0;
      while packet.Remaining() >= 4
        invariant packet.Valid() && packet.len == old(packet.len) && packet.data[..packet.len] == frame
        invariant 0 <= k <= |rs| && packet.ptr == HeaderLen + 4 * k
        invariant forall j | 0 <= j < k :: Narrow(rs[j].kind) != t
        decreases |rs| - k
      {
        ScanCursor(frame, packet.data[..], k);
        var fieldType := packet.ReadUint16();
        if Narrow(fieldType) == t {
          FirstMatchAt(rs, t, k);
          return true;
        }
        packet.Skip(2);
        k := k + 1;
      }
      ScanCursor(frame, packet.data[..], k);
      FirstMatchAt(rs, t, k);
      return false;
    }

    /** The value of the first pair of kind `t`, or `def` if there is none. */
    method GetReadingUint16(t: SensorType, def: u16) returns (v: u16)
      requires packet != null && packet.Valid()
      modifies packet
      ensures packet.Valid() && packet.len == old(packet.len) && packet.Frame() == old(packet.Frame())
      ensures v == FirstValue(Readings(packet.Frame()), t, def)
      ensures packet.ptr == GetScanEnd(Readings(packet.Frame()), t)
    {
      ghost var frame := packet.Frame();
      ghost var rs := Readings(frame);
      packet.ptr := HeaderLen;
      ghost var k := 0;
      while packet.Remaining() >= 4
        invariant packet.Valid() && packet.len == old(packet.len) && packet.data[..packet.len] == frame
        invariant 0 <= k <= |rs| && packet.ptr == HeaderLen + 4 * k
        invariant forall j | 0 <= j < k :: Narrow(rs[j].kind) != t
        decreases |rs| - k
      {
        ScanCursor(frame, packet.data[..], k);
        var fieldType := packet.ReadUint16();
        var fieldValue := packet.ReadUint16();
        if Narrow(fieldType) == t {
          FirstMatchAt(rs, t, k);
          return fieldValue;
        }
        k := k + 1;
      }
      ScanCursor(frame, packet.data[..], k);
      FirstMatchAt(rs, t, k);
      return def;
    }

    method HasBatteryVoltage() returns (b: bool)
      requires packet != null && packet.Valid()
      modifies packet
      ensures packet.Valid() && packet.len == old(packet.len) && packet.Frame() == old(packet.Frame())
      ensures b == HasKind(Readings(packet.Frame()), SensorTypeBattVolts)
      ensures packet.ptr == HasScanEnd(Readings(packet.Frame()), SensorTypeBattVolts)
    {
      b := HasReadingType(SensorTypeBattVolts);
    }

    method BatteryVoltage() returns (v: u16)
      requires packet != null && packet.Valid()
      modifies packet
      ensures packet.Valid() && packet.len == old(packet.len) && packet.Frame() == old(packet.Frame())
      ensures v == FirstValue(Readings(packet.Frame()), SensorTypeBattVolts, 0)
      ensures packet.ptr == GetScanEnd(Readings(packet.Frame()), SensorTypeBattVolts)
    {
      v := GetReadingUint16(SensorTypeBattVolts, 0);
    }

    method HasTemperature() returns (b: bool)
      requires packet != null && packet.Valid()
      modifies packet
      ensures packet.Valid() && packet.len == old(packet.len) && packet.Frame() == old(packet.Frame())
      ensures b == HasKind(Readings(packet.Frame()), SensorTypeTemperature)
      ensures packet.ptr == HasScanEnd(Readings(packet.Frame()), SensorTypeTemperature)
    {
      b := HasReadingType(SensorTypeTemperature);
    }

    method Temperature() returns (v: u16)
      requires packet != null && packet.Valid()
      modifies packet
      ensures packet.Valid() && packet.len == old(packet.len) && packet.Frame() == old(packet.Frame())
      ensures v == FirstValue(Readings(packet.Frame()), SensorTypeTemperature, 0)
      ensures packet.ptr == GetScanEnd(Readings(packet.Frame()), SensorTypeTemperature)
    {
      v := GetReadingUint16(SensorTypeTemperature, 0);
    }

    method HasHumidity() returns (b: bool)
      requires packet != null && packet.Valid()
      modifies packet
      ensures packet.Valid() && packet.len == old(packet.len) && packet.Frame() == old(packet.Frame())
      ensures b == HasKind(Readings(packet.Frame()), SensorTypeHumidity)
      ensures packet.ptr == HasScanEnd(Readings(packet.Frame()), SensorTypeHumidity)
    {
      b := HasReadingType(SensorTypeHumidity);
    }

    method Humidity() returns (v: u16)
      requires packet != null && packet.Valid()
      modifies packet
      ensures packet.Valid() && packet.len == old(packet.len) && packet.Frame() == old(packet.Frame())
      ensures v == FirstValue(Readings(packet.Frame()), SensorTypeHumidity, 0)
      ensures packet.ptr == GetScanEnd(Readings(packet.Frame()), SensorTypeHumidity)
    {
      v := GetReadingUint16(SensorTypeHumidity, 0);
    }

    method HasPressure() returns (b: bool)
      requires packet != null && packet.Valid()
      modifies packet
      ensures packet.Valid() && packet.len == old(packet.len) && packet.Frame() == old(packet.Frame())
      ensures b == HasKind(Readings(packet.Frame()), SensorTypePressure)
      ensures packet.ptr == HasScanEnd(Readings(packet.Frame()), SensorTypePressure)
    {
      b := HasReadingType(SensorTypePressure);
    }

    method Pressure() returns (v: u16)
      requires packet != null && packet.Valid()
      modifies packet
      ensures packet.Valid() && packet.len == old(packet.len) && packet.Frame() == old(packet.Frame())
      ensures v == FirstValue(Readings(packet.Frame()), SensorTypePressure, 0)
      ensures packet.ptr == GetScanEnd(Readings(packet.Frame()), SensorTypePressure)
    {
      v := GetReadingUint16(SensorTypePressure, 0);
    }

    method HasSupplyVoltage() returns (b: bool)
      requires packet != null && packet.Valid()
      modifies packet
      ensures packet.Valid() && packet.len == old(packet.len) && packet.Frame() == old(packet.Frame())
      ensures b == HasKind(Readings(packet.Frame()), SensorTypeSupplyVolts)
      ensures packet.ptr == HasScanEnd(Readings(packet.Frame()), SensorTypeSupplyVolts)
    {
      b := HasReadingType(SensorTypeSupplyVolts);
    }

    method SupplyVoltage() returns (v: u16)
      requires packet != null && packet.Valid()
      modifies packet
      ensures packet.Valid() && packet.len == old(packet.len) && packet.Frame() == old(packet.Frame())
      ensures v == FirstValue(Readings(packet.Frame()), SensorTypeSupplyVolts, 0)
      ensures packet.ptr == GetScanEnd(Readings(packet.Frame()), SensorTypeSupplyVolts)
    {
      v := GetReadingUint16(SensorTypeSupplyVolts, 0);
    }

    method HasLoadPower() returns (b: bool)
      requires packet != null && packet.Valid()
      modifies packet
      ensures packet.Valid() && packet.len == old(packet.len) && packet.Frame() == old(packet.Frame())
      ensures b == HasKind(Readings(packet.Frame()), SensorTypeLoadPower)
      ensures packet.ptr == HasScanEnd(Readings(packet.Frame()), SensorTypeLoadPower)
    {
      b := HasReadingType(SensorTypeLoadPower);
    }

    method LoadPower() returns (v: u16)
      requires packet != null && packet.Valid()
      modifies packet
      ensures packet.Valid() && packet.len == old(packet.len) && packet.Frame() == old(packet.Frame())
      ensures v == FirstValue(Readings(packet.Frame()), SensorTypeLoadPower, 0)
      ensures packet.ptr == GetScanEnd(Readings(packet.Frame()), SensorTypeLoadPower)
    {
      v := GetReadingUint16(SensorTypeLoadPower, 0);
    }

    method HasCoils() returns (b: bool)
      requires packet != null && packet.Valid()
      modifies packet
      ensures packet.Valid() && packet.len == old(packet.len) && packet.Frame() == old(packet.Frame())
      ensures b == HasKind(Readings(packet.Frame()), SensorTypeCoils)
      ensures packet.ptr == HasScanEnd(Readings(packet.Frame()), SensorTypeCoils)
    {
      b := HasReadingType(SensorTypeCoils);
    }

    method Coils() returns (v: u16)
      requires packet != null && packet.Valid()
      modifies packet
      ensures packet.Valid() && packet.len == old(packet.len) && packet.Frame() == old(packet.Frame())
      ensures v == FirstValue(Readings(packet.Frame()), SensorTypeCoils, 0)
      ensures packet.ptr == GetScanEnd(Readings(packet.Frame()), SensorTypeCoils)
    {
      v := GetReadingUint16(SensorTypeCoils, 0);
    }
  }

  /** The two pairs of the example report decode back. */
  lemma ExampleDecodes()
    ensures var p := Add(Add(Zeroed(), SensorTypeBattVolts, 3700), SensorTypeTemperature, 2150);
      && |FrameOf(p)| == HeaderLen + 8
      && Readings(FrameOf(p)) == [Reading(SensorTypeBattVolts, 3700), Reading(SensorTypeTemperature, 2150)]
  {
    AddAppends(Zeroed(), SensorTypeBattVolts, 3700);
    AddAppends(Add(Zeroed(), SensorTypeBattVolts, 3700), SensorTypeTemperature, 2150);
  }

  /** One Add appends the four big-endian bytes of kind and value to the
      bytes before its write position. */
  lemma AddBytes(p: PacketState, kind: u16, v: u16)
    requires WellFormed(p) && WriteStart(p) + 4 <= Capacity
    ensures var at := WriteStart(p);
      Add(p, kind, v).data[..at + 4] == p.data[..at] + [kind / 256, kind % 256, v / 256, v % 256]
  {
    var at := WriteStart(p);
    var q := Write(p, kind);
    var r := Write(q, v);
    assert r.data[at] == q.data[at] && r.data[at + 1] == q.data[at + 1];
    var lhs, rhs := r.data[..at + 4], p.data[..at] + [kind / 256, kind % 256, v / 256, v % 256];
    forall i | 0 <= i < at + 4 ensures lhs[i] == rhs[i] {
      if i < at {
        assert r.data[i] == q.data[i] == p.data[i];
      }
    }
  }

  /** The example's frame, byte by byte: a zero header, then 3700 = 0x0E74
      under kind 0 and 2150 = 0x0866 under kind 1, all big-endian. */
  lemma ExampleBytes()
    ensures var p := Add(Add(Zeroed(), SensorTypeBattVolts, 3700), SensorTypeTemperature, 2150);
      p.ptr == HeaderLen + 8 && p.data[..p.ptr] == seq(HeaderLen, _ => 0) + [0, 0, 14, 116, 0, 1, 8, 102]
  {
    var p1 := Add(Zeroed(), SensorTypeBattVolts, 3700);
    AddBytes(Zeroed(), SensorTypeBattVolts, 3700);
    AddBytes(p1, SensorTypeTemperature, 2150);
    assert Zeroed().data[..HeaderLen] == seq(HeaderLen, _ => 0);
    AppendAssoc(seq(HeaderLen, _ => 0), [0, 0, 14, 116], [0, 1, 8, 102]);
  }

  /** What the lookups answer on the example's two pairs. */
  lemma ExampleLookups()
    ensures var rs := [Reading(SensorTypeBattVolts, 3700), Reading(SensorTypeTemperature, 2150)];
      && ReadingsMap(rs) == map[SensorTypeBattVolts := 3700, SensorTypeTemperature := 2150]
      && FirstValue(rs, SensorTypeBattVolts, 0) == 3700
      && !HasKind(rs, SensorTypeHumidity)
  {
    var rs := [Reading(SensorTypeBattVolts, 3700), Reading(SensorTypeTemperature, 2150)];
    assert rs[..1] == [rs[0]] && rs[..1][..0] == [];
    assert ReadingsMap(rs[..1]) == map[SensorTypeBattVolts := 3700];
    assert FirstIndexOf(rs, SensorTypeBattVolts) == 0;
  }

  /** A report with a battery voltage of 3700 mV and a temperature of
      21.50 degrees Celsius, built on a zeroed packet: the frame is the
      10-byte header plus two pairs, and every way of reading it back agrees. */
  method ExampleReport() returns (frame: seq<byte>, readings: map<SensorType, u16>, battery: u16, hasHumidity: bool)
    ensures |frame| == HeaderLen + 8
    ensures frame == seq(HeaderLen, _ => 0) + [0, 0, 14, 116, 0, 1, 8, 102]
    ensures readings == map[SensorTypeBattVolts := 3700, SensorTypeTemperature := 2150]
    ensures battery == 3700 && !hasHumidity
  {
    var p := new Packets.Packet();
    var r := new SensorReport();
    r.AttachPacket(p);
    r.AddBatteryVoltage(3700);
    r.AddTemperature(2150);
    ghost var built := Add(Add(Zeroed(), SensorTypeBattVolts, 3700), SensorTypeTemperature, 2150);
    assert p.State() == built;
    ExampleBytes();
    ExampleDecodes();
    ExampleLookups();
    battery := r.BatteryVoltage();
    hasHumidity := r.HasHumidity();
    readings := r.AllReadings();
    frame := p.AsBytes();
  }
}
