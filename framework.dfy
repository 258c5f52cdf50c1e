/** The framework glue: the start-up sequence and main loop that run a
    node, the alert flags it reports, and the stamping and transmission of
    a message over the radio. */
module Framework {
  import opened Packets
  import opened SensorReports
  import opened Sensors
  import opened Capabilities
  import opened Time
  import opened Lifecycle

  // ---------------------------------------------------------------------
  // Alerts
  // ---------------------------------------------------------------------

  /** The clock-failure flag. Its definition is not part of this model;
      it is taken to be the next free bit after the two battery flags. */
  const AlertRtcFailure: Alerts := 1 << 3

  /** The three alert flags are distinct single bits. */
  lemma AlertFlagsDistinct()
    ensures AlertRtcFailure == 8
    ensures AlertBattLow & AlertRtcFailure == 0 && AlertBattCritical & AlertRtcFailure == 0
  {
    AlertBits();
  }

  /** The alert word for a battery level and a clock status. */
  function AlertsFor(battery: u16, rtc: RtcAccess, healthy: bool, low: u16, critical: u16): Alerts {
    var lowBit := if battery < low then AlertBattLow else AlertNone;
    var criticalBit := if battery < critical then AlertBattCritical else AlertNone;
    var rtcBit := if !rtc.RtcOk? || !healthy then AlertRtcFailure else AlertNone;
    AlertNone | lowBit | criticalBit | rtcBit
  }

  /** Low battery is flagged below `low` and critical battery below
      `critical` (both may be set at once); clock failure is flagged when
      the clock could not be obtained or reports itself unhealthy. No other
      bit is ever set. */
  lemma AlertsForBits(battery: u16, rtc: RtcAccess, healthy: bool, low: u16, critical: u16)
    ensures var a := AlertsFor(battery, rtc, healthy, low, critical);
      && ((a & AlertBattLow != 0) <==> battery < low)
      && ((a & AlertBattCritical != 0) <==> battery < critical)
      && ((a & AlertRtcFailure != 0) <==> !rtc.RtcOk? || !healthy)
      && a & !(AlertBattLow | AlertBattCritical | AlertRtcFailure) == 0
  {
  }

  /** The queries the alert computation makes, in order; the clock's health
      is only asked of a clock that was obtained. */
  function AlertQueries(r: Responses): seq<Call> {
    [Call.BatteryVoltage, Call.GetRtc] + (if r.rtc.RtcOk? then [Call.IsHealthy] else [])
  }

  // ---------------------------------------------------------------------
  // Stamping and sending a message
  // ---------------------------------------------------------------------

  /** The header a sent packet carries: current version, the message type,
      network 0, the device and the current alerts, set in that order. */
  function Stamp(p: PacketState, t: PacketType, device: u16, alerts: Alerts): (q: PacketState)
    requires WellFormed(p)
    ensures WellFormed(q) && q.ptr == p.ptr && q.len == p.len
  {
    var p1 := SetField(p, VersionOffset, CurrentVersion);
    var p2 := SetField(p1, TypeOffset, t);
    var p3 := SetField(p2, NetworkIdOffset, 0);
    var p4 := SetField(p3, DeviceIdOffset, device);
    SetField(p4, AlertsOffset, alerts as int)
  }

  /** Each stamped field reads back as set, whatever order the setters ran
      in; the cursor, the length and every payload byte are left alone. */
  lemma StampHeader(p: PacketState, t: PacketType, device: u16, alerts: Alerts)
    requires WellFormed(p)
    ensures var q := Stamp(p, t, device, alerts);
      && GetU16(q.data, VersionOffset) == CurrentVersion
      && GetU16(q.data, TypeOffset) == t
      && GetU16(q.data, NetworkIdOffset) == 0
      && GetU16(q.data, DeviceIdOffset) == device
      && GetU16(q.data, AlertsOffset) == alerts as int
      && q.data[HeaderLen..] == p.data[HeaderLen..]
  {
  }

  /** Stamping the header before or after a payload write gives the same packet. */
  lemma StampCommutesWithWrite(p: PacketState, t: PacketType, device: u16, alerts: Alerts, v: u16)
    requires WellFormed(p) && WriteStart(p) + 2 <= Capacity
    ensures Stamp(Write(p, v), t, device, alerts) == Write(Stamp(p, t, device, alerts), v)
  {
    var p1 := SetField(p, VersionOffset, CurrentVersion);
    var p2 := SetField(p1, TypeOffset, t);
    var p3 := SetField(p2, NetworkIdOffset, 0);
    var p4 := SetField(p3, DeviceIdOffset, device);
    SetFieldCommutesWithWrite(p, VersionOffset, CurrentVersion, v);
    SetFieldCommutesWithWrite(p1, TypeOffset, t, v);
    SetFieldCommutesWithWrite(p2, NetworkIdOffset, 0, v);
    SetFieldCommutesWithWrite(p3, DeviceIdOffset, device, v);
    SetFieldCommutesWithWrite(p4, AlertsOffset, alerts as int, v);
  }

  /** Frames that agree from the header on decode to the same pairs. */
  lemma ReadingsIgnoreHeader(f: seq<byte>, g: seq<byte>)
    requires |f| == |g| && forall i | HeaderLen <= i < |f| :: f[i] == g[i]
    ensures Readings(f) == Readings(g)
  {
    forall k | 0 <= k < PairCount(f)
      ensures ReadingAt(f, k) == ReadingAt(g, k)
    {
      var at := HeaderLen + 4 * k;
      assert f[at] == g[at] && f[at + 1] == g[at + 1] && f[at + 2] == g[at + 2] && f[at + 3] == g[at + 3];
    }
  }

  /** Stamping the header leaves the report's readings as they were. */
  lemma StampKeepsReadings(p: PacketState, t: PacketType, device: u16, alerts: Alerts)
    requires WellFormed(p)
    ensures Readings(FrameOf(Stamp(p, t, device, alerts))) == Readings(FrameOf(p))
  {
    var q := Stamp(p, t, device, alerts);
    forall i | HeaderLen <= i < p.len
      ensures FrameOf(q)[i] == FrameOf(p)[i]
    {
      assert q.data[HeaderLen..][i - HeaderLen] == p.data[HeaderLen..][i - HeaderLen];
    }
    ReadingsIgnoreHeader(FrameOf(q), FrameOf(p));
  }

  /** What sending returned, the calls it made, and the packet afterwards. */
  datatype Sent = Sent(err: Outcome, trace: seq<Call>, packet: PacketState)

  /** Sending against the board's answers `r`. */
  function SendSpec(r: Responses, p: PacketState, t: PacketType, device: u16, low: u16, critical: u16): (s: Sent)
    requires WellFormed(p)
    ensures WellFormed(s.packet)
  {
    if r.radio.Err? then
      Sent(r.radio, [Call.GetRadio], p)
    else
      var q := Stamp(p, t, device, AlertsFor(r.battery, r.rtc, r.healthy, low, critical));
      Sent(r.tx, [Call.GetRadio] + AlertQueries(r) + [Call.Tx(UsedBytes(q), 1000)], q)
  }

  /** Without a radio, sending returns the radio's error, transmits nothing
      and leaves the packet alone. With one, it stamps the header, queries
      the battery and the clock, and transmits the used bytes exactly once,
      last, with a timeout of 1000 ms, returning the transmission's result;
      the clock's health is asked only of a clock that was obtained. */
  lemma SendShape(r: Responses, p: PacketState, t: PacketType, device: u16, low: u16, critical: u16)
    requires WellFormed(p)
    ensures var s := SendSpec(r, p, t, device, low, critical);
      && (r.radio.Err? ==> s.err == r.radio && s.packet == p && s.trace == [Call.GetRadio])
      && (r.radio.Ok? ==> s.err == r.tx && |s.trace| >= 4 && s.trace[..3] == [Call.GetRadio, Call.BatteryVoltage, Call.GetRtc])
      && (r.radio.Ok? ==> s.trace[|s.trace| - 1] == Call.Tx(UsedBytes(s.packet), 1000))
      && (r.radio.Ok? ==> s.packet == Stamp(p, t, device, AlertsFor(r.battery, r.rtc, r.healthy, low, critical)))
      && (Call.IsHealthy in s.trace <==> r.radio.Ok? && r.rtc.RtcOk?)
      && (forall i | 0 <= i < |s.trace| - 1 :: !s.trace[i].Tx?)
  {
  }

  /** A sent report goes out with its payload bytes as added and decodes to
      the readings that were added. */
  lemma SentReportCarriesReadings(r: Responses, rs: seq<Reading>, t: PacketType, device: u16, low: u16, critical: u16)
    requires r.radio.Ok? && HeaderLen + 4 * |rs| <= Capacity
    ensures var s := SendSpec(r, AddAll(Zeroed(), rs), t, device, low, critical);
      Readings(FrameOf(s.packet)) == rs && s.packet.ptr == s.packet.len && UsedBytes(s.packet) == FrameOf(s.packet)
  {
    var p := AddAll(Zeroed(), rs);
    ReportRoundTrip(rs);
    AddAllAppends(Zeroed(), rs);
    StampKeepsReadings(p, t, device, AlertsFor(r.battery, r.rtc, r.healthy, low, critical));
  }

  /** Send transmits the bytes up to the cursor, not up to the length: after
      a has-test that found its kind, which leaves the cursor just after that
      kind, a sent report goes out shorter than its frame. */
  lemma LookupBeforeSendShortensFrame(r: Responses, p: PacketState, k: SensorType,
                                      t: PacketType, device: u16, low: u16, critical: u16)
    requires WellFormed(p) && r.radio.Ok? && HasKind(Readings(FrameOf(p)), k)
    ensures var q := p.(ptr := HasScanEnd(Readings(FrameOf(p)), k));
      var s := SendSpec(r, q, t, device, low, critical);
      && s.trace[|s.trace| - 1] == Call.Tx(UsedBytes(s.packet), 1000)
      && |UsedBytes(s.packet)| + 2 <= |FrameOf(s.packet)|
      && UsedBytes(s.packet) == FrameOf(s.packet)[..|UsedBytes(s.packet)|]
  {
    var rs := Readings(FrameOf(p));
    HasScanEndInsideFrame(FrameOf(p), k);
    var q := p.(ptr := HasScanEnd(rs, k));
    var st := Stamp(q, t, device, AlertsFor(r.battery, r.rtc, r.healthy, low, critical));
    assert SendSpec(r, q, t, device, low, critical).packet == st;
    PrefixOfPrefix(st.data, st.ptr, st.len);
  }

  /** A shorter prefix of a sequence is a prefix of every longer one. */
  lemma PrefixOfPrefix<T>(s: seq<T>, i: nat, j: nat)
    requires i <= j <= |s|
    ensures s[..i] == s[..j][..i]
  {
  }

  // ---------------------------------------------------------------------
  // The framework object
  // ---------------------------------------------------------------------

  class Framework {
    const env: Environment
    const deviceId: u16
    const lowBattery: u16
    const criticalBattery: u16

    /** A framework over the given board, with the device identifier and
        the two battery alert thresholds in millivolts. */
    constructor (env: Environment, deviceId: u16, lowBattery: u16, criticalBattery: u16)
      ensures this.env == env && this.deviceId == deviceId
      ensures this.lowBattery == lowBattery && this.criticalBattery == criticalBattery
    {
      this.env := env;
      this.deviceId := deviceId;
      this.lowBattery := lowBattery;
      this.criticalBattery := criticalBattery;
    }

    /** Runs the start-up sequence, then the main loop until a panic or
        until the script of wake cycles is used up. */
    method Run() returns (outcome: RunOutcome)
      modifies env
      ensures var e := RunSpec(env.responses, old(env.cycles));
        outcome == e.outcome && env.trace == old(env.trace) + e.trace && env.cycles == e.left
    {
      ghost var r, t0, c0 := env.responses, env.trace, env.cycles;
      var err := env.InitializePreRtc();
      ghost var done := [Call.InitializePreRtc];
      if err.Err? {
        return Fatal(PreRtcInit);
      }
      var rtc := env.GetRtc();
      AppendAssoc(t0, done, [Call.GetRtc]);
      done := done + [Call.GetRtc];
      if !rtc.RtcOk? {
        return Fatal(RtcAcquire);
      }
      err := InitTime(env);
      AppendAssoc(t0, done, InitTimeSpec(r).trace);
      done := done + InitTimeSpec(r).trace;
      if err.Err? {
        return Fatal(TimeSync);
      }
      err := env.InitializePostRtc();
      AppendAssoc(t0, done, [Call.InitializePostRtc]);
      done := done + [Call.InitializePostRtc];
      if err.Err? {
        return Fatal(PostRtcInit);
      }
      err := env.AppInitialize();
      AppendAssoc(t0, done, [Call.AppInitialize]);
      done := done + [Call.AppInitialize];
      if err.Err? {
        return Fatal(AppInit);
      }
      assert StartSpec(r) == Ready(done);
      AppendAssoc(t0, done, LoopSpec(c0).trace);
      ghost var started := env.trace;
      while env.cycles != []
        invariant env.trace + LoopSpec(env.cycles).trace == started + LoopSpec(c0).trace
        invariant LoopSpec(env.cycles).outcome == LoopSpec(c0).outcome
        invariant LoopSpec(env.cycles).left == LoopSpec(c0).left
        decreases |env.cycles|
      {
        ghost var cs, before := env.cycles, env.trace;
        var triggered := env.IsAlarmTriggered();
        ghost var step := [Call.IsAlarmTriggered];
        if triggered.Failed? {
          assert env.trace == before + LoopSpec(cs).trace;
          return Fatal(AlarmQuery);
        }
        if triggered.value {
          var ackErr := env.AcknowledgeAlarm();
          AppendAssoc(before, step, [Call.AcknowledgeAlarm]);
          step := step + [Call.AcknowledgeAlarm];
          var appErr := env.AppTriggered();
          AppendAssoc(before, step, [Call.AppTriggered]);
          step := step + [Call.AppTriggered];
        }
        var reason := env.DeepSleep();
        AppendAssoc(before, step, [Call.DeepSleep]);
        step := step + [Call.DeepSleep];
        if reason & WakeByUsb != 0 {
          var usbErr := env.AppUsbPowered();
          AppendAssoc(before, step, [Call.AppUsbPowered]);
          step := step + [Call.AppUsbPowered];
        }
        assert step == CycleTrace(cs[0]);
        AppendAssoc(before, CycleTrace(cs[0]), LoopSpec(env.cycles).trace);
      }
      return Suspended;
    }

    /** The current alert word, from the battery level and the clock. */
    method CurrentAlerts() returns (val: Alerts)
      modifies env
      ensures val == AlertsFor(env.responses.battery, env.responses.rtc, env.responses.healthy, lowBattery, criticalBattery)
      ensures env.trace == old(env.trace) + AlertQueries(env.responses)
      ensures env.cycles == old(env.cycles) && env.current == old(env.current)
    {
      val := AlertNone;
      var battV := env.BatteryVoltage();
      if battV < lowBattery {
        val := val | AlertBattLow;
      }
      if battV < criticalBattery {
        val := val | AlertBattCritical;
      }
      var rtc := env.GetRtc();
      if !rtc.RtcOk? {
        val := val | AlertRtcFailure;
      } else {
        var healthy := env.IsHealthy();
        if !healthy {
          val := val | AlertRtcFailure;
        }
      }
    }

    /** Stamps the message's packet and transmits its used bytes. */
    method Send(msg: SensorReport, t: PacketType) returns (err: Outcome)
      requires msg.packet != null && msg.packet.Valid()
      modifies env, msg.packet.data
      ensures msg.packet.Valid()
      ensures var s := SendSpec(env.responses, old(msg.packet.State()), t, deviceId, lowBattery, criticalBattery);
        err == s.err && env.trace == old(env.trace) + s.trace && msg.packet.State() == s.packet
      ensures env.cycles == old(env.cycles) && env.current == old(env.current)
    {
      ghost var p0, t0, r := msg.packet.State(), env.trace, env.responses;
      var radioErr := env.GetRadio();
      if radioErr.Err? {
        return radioErr;
      }
      var pkt := msg.Packet();
      pkt.SetVersion(CurrentVersion);
      pkt.SetType(t);
      pkt.SetNetworkID(0);
      pkt.SetDeviceID(deviceId);
      var alerts := CurrentAlerts();
      ghost var queried := env.trace;
      pkt.SetAlerts(alerts);
      ghost var s := SendSpec(r, p0, t, deviceId, lowBattery, criticalBattery);
      assert pkt.State() == s.packet;
      StampHeader(p0, t, deviceId, alerts);
      pkt.UpdateCRC();
      var data := pkt.AsBytes();
      assert data == UsedBytes(s.packet);
      err := env.Tx(data, 1000);
      ghost var q := AlertQueries(r);
      assert queried == t0 + [Call.GetRadio] + q;
      AppendAssoc(t0, [Call.GetRadio], q);
      AppendAssoc(t0, [Call.GetRadio] + q, [Call.Tx(data, 1000)]);
      assert s.trace == [Call.GetRadio] + q + [Call.Tx(data, 1000)];
    }
  }
}
