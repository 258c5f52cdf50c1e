/** The hardware the framework drives: board, real-time clock, radio and
    application. Each is an interface whose implementation lives outside
    the core, so here it is one scripted stand-in: every query answers
    from a fixed script, and every call is appended to a trace that the
    framework's properties are stated over. */
module Capabilities {
  import opened Packets

  /** An `error` result: nil or an error value. */
  datatype Outcome = Ok | Err(error: string)

  /** A `(value, error)` result. */
  datatype Query<T> = Answer(value: T) | Failed(error: string)

  /** What `Board.RTC()` hands back: an error, a nil clock, or a clock. */
  datatype RtcAccess = RtcError(error: string) | RtcNil | RtcOk

  /** The clock fields a periodic alarm can be keyed on. */
  datatype RtcField = RtcSecs | RtcMins | RtcHours | RtcWeekDay | RtcDay

  /** The reasons a board woke from deep sleep, one bit each. */
  type WakeReason = bv8
  const WakeUnknown: WakeReason := 0
  const WakeByRtcAlarm: WakeReason := 1 << 1
  const WakeByUsb: WakeReason := 1 << 2

  /** The wake reasons are distinct single bits (`1 << iota` from iota 1). */
  lemma WakeBits()
    ensures WakeUnknown == 0 && WakeByRtcAlarm == 2 && WakeByUsb == 4
    ensures WakeByRtcAlarm & WakeByUsb == 0
  {
  }

  /** The script of one main-loop iteration: the alarm status, the
      acknowledgement, the application's trigger callback, the wake reason
      returned by deep sleep and the USB callback. */
  datatype Cycle = Cycle(
    triggered: Query<bool>,
    ack: Outcome,
    appTriggered: Outcome,
    wake: WakeReason,
    usbPowered: Outcome)

  /** The answers that do not change from one iteration to the next. */
  datatype Responses = Responses(
    preRtc: Outcome,
    rtc: RtcAccess,
    healthy: bool,
    setTime: Outcome,
    alarmEnabled: Query<bool>,
    setAlarm: Outcome,
    postRtc: Outcome,
    appInit: Outcome,
    battery: u16,
    radio: Outcome,
    tx: Outcome)

  /** One call into the hardware or the application. */
  datatype Call =
    | InitializePreRtc
    | GetRtc
    | SetTimeFromRtc
    | IsAlarmEnabled
    | SetPeriodicAlarm(value: byte, field: RtcField)
    | InitializePostRtc
    | AppInitialize
    | IsAlarmTriggered
    | AcknowledgeAlarm
    | AppTriggered
    | DeepSleep
    | AppUsbPowered
    | BatteryVoltage
    | IsHealthy
    | GetRadio
    | Tx(frame: seq<byte>, timeoutMs: nat)

  /** Board, clock, radio and application behind one object. The iteration
      in progress is `current`; `cycles` holds the iterations still to come. */
  class Environment {
    const responses: Responses
    var cycles: seq<Cycle>
    var current: Cycle
    var trace: seq<Call>

    constructor (responses: Responses, cycles: seq<Cycle>)
      ensures this.responses == responses && this.cycles == cycles && trace == []
    {
      this.responses := responses;
      this.cycles := cycles;
      this.current := Cycle(Answer(false), Ok, Ok, WakeUnknown, Ok);
      this.trace := [];
    }

    method InitializePreRtc() returns (err: Outcome)
      modifies this
      ensures err == responses.preRtc
      ensures trace == old(trace) + [Call.InitializePreRtc] && cycles == old(cycles) && current == old(current)
    {
      trace := trace + [Call.InitializePreRtc];
      err := responses.preRtc;
    }

    method GetRtc() returns (r: RtcAccess)
      modifies this
      ensures r == responses.rtc
      ensures trace == old(trace) + [Call.GetRtc] && cycles == old(cycles) && current == old(current)
    {
      trace := trace + [Call.GetRtc];
      r := responses.rtc;
    }

    /** Sets the system clock from the real-time clock. */
    method SetTimeFromRtc() returns (err: Outcome)
      modifies this
      ensures err == responses.setTime
      ensures trace == old(trace) + [Call.SetTimeFromRtc] && cycles == old(cycles) && current == old(current)
    {
      trace := trace + [Call.SetTimeFromRtc];
      err := responses.setTime;
    }

    method IsAlarmEnabled() returns (r: Query<bool>)
      modifies this
      ensures r == responses.alarmEnabled
      ensures trace == old(trace) + [Call.IsAlarmEnabled] && cycles == old(cycles) && current == old(current)
    {
      trace := trace + [Call.IsAlarmEnabled];
      r := responses.alarmEnabled;
    }

    method SetPeriodicAlarm(value: byte, field: RtcField) returns (err: Outcome)
      modifies this
      ensures err == responses.setAlarm
      ensures trace == old(trace) + [Call.SetPeriodicAlarm(value, field)] && cycles == old(cycles) && current == old(current)
    {
      trace := trace + [Call.SetPeriodicAlarm(value, field)];
      err := responses.setAlarm;
    }

    method InitializePostRtc() returns (err: Outcome)
      modifies this
      ensures err == responses.postRtc
      ensures trace == old(trace) + [Call.InitializePostRtc] && cycles == old(cycles) && current == old(current)
    {
      trace := trace + [Call.InitializePostRtc];
      err := responses.postRtc;
    }

    method AppInitialize() returns (err: Outcome)
      modifies this
      ensures err == responses.appInit
      ensures trace == old(trace) + [Call.AppInitialize] && cycles == old(cycles) && current == old(current)
    {
      trace := trace + [Call.AppInitialize];
      err := responses.appInit;
    }

    /** Starts the next iteration of the main loop and reports its alarm status. */
    method IsAlarmTriggered() returns (r: Query<bool>)
      requires cycles != []
      modifies this
      ensures current == old(cycles[0]) && cycles == old(cycles[1..]) && r == current.triggered
      ensures trace == old(trace) + [Call.IsAlarmTriggered]
    {
      current := cycles[0];
      cycles := cycles[1..];
      trace := trace + [Call.IsAlarmTriggered];
      r := current.triggered;
    }

    method AcknowledgeAlarm() returns (err: Outcome)
      modifies this
      ensures err == current.ack
      ensures trace == old(trace) + [Call.AcknowledgeAlarm] && cycles == old(cycles) && current == old(current)
    {
      trace := trace + [Call.AcknowledgeAlarm];
      err := current.ack;
    }

    method AppTriggered() returns (err: Outcome)
      modifies this
      ensures err == current.appTriggered
      ensures trace == old(trace) + [Call.AppTriggered] && cycles == old(cycles) && current == old(current)
    {
      trace := trace + [Call.AppTriggered];
      err := current.appTriggered;
    }

    method DeepSleep() returns (reason: WakeReason)
      modifies this
      ensures reason == current.wake
      ensures trace == old(trace) + [Call.DeepSleep] && cycles == old(cycles) && current == old(current)
    {
      trace := trace + [Call.DeepSleep];
      reason := current.wake;
    }

    method AppUsbPowered() returns (err: Outcome)
      modifies this
      ensures err == current.usbPowered
      ensures trace == old(trace) + [Call.AppUsbPowered] && cycles == old(cycles) && current == old(current)
    {
      trace := trace + [Call.AppUsbPowered];
      err := current.usbPowered;
    }

    /** The battery level in millivolts. */
    method BatteryVoltage() returns (milliVolts: u16)
      modifies this
      ensures milliVolts == responses.battery
      ensures trace == old(trace) + [Call.BatteryVoltage] && cycles == old(cycles) && current == old(current)
    {
      trace := trace + [Call.BatteryVoltage];
      milliVolts := responses.battery;
    }

    method IsHealthy() returns (healthy: bool)
      modifies this
      ensures healthy == responses.healthy
      ensures trace == old(trace) + [Call.IsHealthy] && cycles == old(cycles) && current == old(current)
    {
      trace := trace + [Call.IsHealthy];
      healthy := responses.healthy;
    }

    method GetRadio() returns (err: Outcome)
      modifies this
      ensures err == responses.radio
      ensures trace == old(trace) + [Call.GetRadio] && cycles == old(cycles) && current == old(current)
    {
      trace := trace + [Call.GetRadio];
      err := responses.radio;
    }

    method Tx(frame: seq<byte>, timeoutMs: nat) returns (err: Outcome)
      modifies this
      ensures err == responses.tx
      ensures trace == old(trace) + [Call.Tx(frame, timeoutMs)] && cycles == old(cycles) && current == old(current)
    {
      trace := trace + [Call.Tx(frame, timeoutMs)];
      err := responses.tx;
    }
  }
}
