/** The order in which a node's start-up stages and main-loop calls
    happen, as functions of the board's scripted answers. */
module Lifecycle {
  import opened Capabilities
  import opened Time

  /** The start-up stages, each fatal when it fails, and the alarm query
      that begins every loop iteration. */
  datatype Stage = PreRtcInit | RtcAcquire | TimeSync | PostRtcInit | AppInit | AlarmQuery

  /** How a run ends: a panic at some stage, or the script of wake cycles
      running out while the loop would go on. */
  datatype RunOutcome = Fatal(stage: Stage) | Suspended

  /** The end of a run, the calls it made and the wake cycles left unused. */
  datatype Execution = Execution(outcome: RunOutcome, trace: seq<Call>, left: seq<Cycle>)

  /** The calls the main loop makes. */
  predicate IsLoopCall(c: Call) {
    c.IsAlarmTriggered? || c.AcknowledgeAlarm? || c.AppTriggered? || c.DeepSleep? || c.AppUsbPowered?
  }

  /** One loop iteration whose alarm query answered: acknowledge and call
      the application when the alarm fired, then sleep, then call the
      application when the board woke for USB power. */
  function CycleTrace(c: Cycle): seq<Call>
    requires c.triggered.Answer?
  {
    var queried := [Call.IsAlarmTriggered];
    var handled := if c.triggered.value then queried + [Call.AcknowledgeAlarm] + [Call.AppTriggered] else queried;
    var slept := handled + [Call.DeepSleep];
    if c.wake & WakeByUsb != 0 then slept + [Call.AppUsbPowered] else slept
  }

  /** An iteration starts with the alarm query and makes loop calls only. */
  lemma CycleTraceCalls(c: Cycle)
    requires c.triggered.Answer?
    ensures var t := CycleTrace(c);
      |t| >= 2 && t[0] == Call.IsAlarmTriggered && forall x | x in t :: IsLoopCall(x)
  {
  }

  /** An iteration queries the alarm and sleeps once each, whatever the
      callbacks return; it acknowledges and calls the application once
      exactly when the alarm fired, and calls the USB callback once exactly
      when the wake reason has the USB bit. */
  lemma CycleTraceCounts(c: Cycle)
    requires c.triggered.Answer?
    ensures var t := CycleTrace(c);
      && multiset(t)[Call.IsAlarmTriggered] == 1 && multiset(t)[Call.DeepSleep] == 1
      && multiset(t)[Call.AcknowledgeAlarm] == (if c.triggered.value then 1 else 0)
      && multiset(t)[Call.AppTriggered] == (if c.triggered.value then 1 else 0)
      && multiset(t)[Call.AppUsbPowered] == (if c.wake & WakeByUsb != 0 then 1 else 0)
  {
  }

  /** The main loop over a script of wake cycles. */
  function LoopSpec(cs: seq<Cycle>): Execution
    decreases |cs|
  {
    if cs == [] then Execution(Suspended, [], [])
    else if cs[0].triggered.Failed? then Execution(Fatal(AlarmQuery), [Call.IsAlarmTriggered], cs[1..])
    else
      var e := LoopSpec(cs[1..]);
      Execution(e.outcome, CycleTrace(cs[0]) + e.trace, e.left)
  }

  /** How start-up ended: halted at a stage, or ready to enter the main
      loop; either way with the calls it made. */
  datatype Start = Halted(stage: Stage, trace: seq<Call>) | Ready(trace: seq<Call>)

  /** The start-up sequence: board, clock, time and alarm, board again,
      application; the first stage that fails halts it. */
  function StartSpec(r: Responses): Start {
    var t0 := [Call.InitializePreRtc];
    if r.preRtc.Err? then Halted(PreRtcInit, t0)
    else
      var t1 := t0 + [Call.GetRtc];
      if !r.rtc.RtcOk? then Halted(RtcAcquire, t1)
      else
        var t2 := t1 + InitTimeSpec(r).trace;
        if InitTimeSpec(r).err.Err? then Halted(TimeSync, t2)
        else
          var t3 := t2 + [Call.InitializePostRtc];
          if r.postRtc.Err? then Halted(PostRtcInit, t3)
          else
            var t4 := t3 + [Call.AppInitialize];
            if r.appInit.Err? then Halted(AppInit, t4)
            else Ready(t4)
  }

  /** Start-up followed by the main loop. A halted start-up is fatal and
      leaves every cycle unused. */
  function RunSpec(r: Responses, cs: seq<Cycle>): Execution {
    match StartSpec(r)
    case Halted(stage, t) => Execution(Fatal(stage), t, cs)
    case Ready(t) =>
      var e := LoopSpec(cs);
      Execution(e.outcome, t + e.trace, e.left)
  }

  /** Every start-up stage succeeds. */
  predicate InitSucceeds(r: Responses) {
    r.preRtc.Ok? && r.rtc.RtcOk? && InitTimeSpec(r).err.Ok? && r.postRtc.Ok? && r.appInit.Ok?
  }

  /** The main loop makes loop calls only, and begins with the alarm
      query whenever there is a cycle to run. */
  lemma {:induction false} LoopCallsOnly(cs: seq<Cycle>)
    ensures forall c | c in LoopSpec(cs).trace :: IsLoopCall(c)
    ensures cs == [] <==> LoopSpec(cs).trace == []
    ensures cs != [] ==> LoopSpec(cs).trace[0] == Call.IsAlarmTriggered
    decreases |cs|
  {
    if cs != [] && cs[0].triggered.Answer? {
      LoopCallsOnly(cs[1..]);
      CycleTraceCalls(cs[0]);
    }
  }

  /** The main loop repeats no start-up call. */
  lemma LoopSkipsStartUp(cs: seq<Cycle>)
    ensures var t := LoopSpec(cs).trace;
      && Call.InitializePreRtc !in t && Call.GetRtc !in t && Call.SetTimeFromRtc !in t
      && Call.InitializePostRtc !in t && Call.AppInitialize !in t
  {
    LoopCallsOnly(cs);
  }

  /** A failing start-up stage is fatal at that stage, and the main loop
      is reached, with every cycle still to run, iff every stage succeeded. */
  lemma InitFailureIsFatal(r: Responses, cs: seq<Cycle>)
    ensures var e := RunSpec(r, cs);
      && (e.outcome == Fatal(PreRtcInit) <==> r.preRtc.Err?)
      && (e.outcome == Fatal(RtcAcquire) <==> r.preRtc.Ok? && !r.rtc.RtcOk?)
      && (e.outcome == Fatal(TimeSync) <==> r.preRtc.Ok? && r.rtc.RtcOk? && InitTimeSpec(r).err.Err?)
      && (e.outcome == Fatal(PostRtcInit) <==>
            r.preRtc.Ok? && r.rtc.RtcOk? && InitTimeSpec(r).err.Ok? && r.postRtc.Err?)
      && (e.outcome == Fatal(AppInit) <==>
            r.preRtc.Ok? && r.rtc.RtcOk? && InitTimeSpec(r).err.Ok? && r.postRtc.Ok? && r.appInit.Err?)
      && (!InitSucceeds(r) ==> e.left == cs)
      && (InitSucceeds(r) ==> e.outcome == LoopSpec(cs).outcome && e.left == LoopSpec(cs).left)
  {
    LoopSleeps(cs);
  }

  /** Start-up enters each stage iff every earlier stage succeeded, and
      never queries the alarm status of the main loop. */
  lemma StartStagesInOrder(r: Responses)
    ensures var t := StartSpec(r).trace;
      && (Call.GetRtc in t <==> r.preRtc.Ok?)
      && (Call.SetTimeFromRtc in t <==> r.preRtc.Ok? && r.rtc.RtcOk?)
      && (Call.InitializePostRtc in t <==> r.preRtc.Ok? && r.rtc.RtcOk? && InitTimeSpec(r).err.Ok?)
      && (Call.AppInitialize in t <==>
            r.preRtc.Ok? && r.rtc.RtcOk? && InitTimeSpec(r).err.Ok? && r.postRtc.Ok?)
      && Call.IsAlarmTriggered !in t
      && (StartSpec(r).Ready? <==> InitSucceeds(r))
  {
    InitTimeCalls(r);
  }

  /** Each start-up stage of a run is entered iff every earlier stage
      succeeded, and the main loop iff all of them did. */
  lemma StagesReached(r: Responses, cs: seq<Cycle>)
    ensures var e := RunSpec(r, cs);
      && (Call.GetRtc in e.trace <==> r.preRtc.Ok?)
      && (Call.SetTimeFromRtc in e.trace <==> r.preRtc.Ok? && r.rtc.RtcOk?)
      && (Call.InitializePostRtc in e.trace <==> r.preRtc.Ok? && r.rtc.RtcOk? && InitTimeSpec(r).err.Ok?)
      && (Call.AppInitialize in e.trace <==>
            r.preRtc.Ok? && r.rtc.RtcOk? && InitTimeSpec(r).err.Ok? && r.postRtc.Ok?)
      && (Call.IsAlarmTriggered in e.trace <==> InitSucceeds(r) && cs != [])
  {
    StartStagesInOrder(r);
    LoopSkipsStartUp(cs);
    LoopCallsOnly(cs);
  }

  /** Cycles whose alarm query answered, up to the first one that failed. */
  function Completed(cs: seq<Cycle>): (n: nat)
    ensures n <= |cs|
    ensures forall i | 0 <= i < n :: cs[i].triggered.Answer?
    ensures n < |cs| ==> cs[n].triggered.Failed?
    decreases |cs|
  {
    if cs == [] || cs[0].triggered.Failed? then 0 else 1 + Completed(cs[1..])
  }

  /** The number of cycles whose alarm had fired. */
  function Triggers(cs: seq<Cycle>): nat
    decreases |cs|
  {
    if cs == [] then 0 else (if cs[0].triggered == Answer(true) then 1 else 0) + Triggers(cs[1..])
  }

  /** The number of cycles whose wake reason has the USB bit. */
  function UsbWakes(cs: seq<Cycle>): nat
    decreases |cs|
  {
    if cs == [] then 0 else (if cs[0].wake & WakeByUsb != 0 then 1 else 0) + UsbWakes(cs[1..])
  }

  /** Over a script of wake cycles, the loop sleeps once per cycle up to
      the first failed alarm query, which is fatal and leaves the cycles
      after it unused; without a failed query it runs every cycle. */
  lemma {:induction false} LoopSleeps(cs: seq<Cycle>)
    ensures var e := LoopSpec(cs); var n := Completed(cs);
      && multiset(e.trace)[Call.DeepSleep] == n
      && multiset(e.trace)[Call.IsAlarmTriggered] == (if n < |cs| then n + 1 else n)
      && (e.outcome == Fatal(AlarmQuery) <==> n < |cs|)
      && (e.outcome == Suspended <==> n == |cs|)
      && e.left == (if n < |cs| then cs[n + 1..] else [])
    decreases |cs|
  {
    if cs != [] && cs[0].triggered.Answer? {
      LoopSleeps(cs[1..]);
      CycleTraceCounts(cs[0]);
      var n := Completed(cs);
      if n < |cs| {
        assert cs[n + 1..] == cs[1..][n..];
      }
    }
  }

  /** Counting over the first n cycles: the first cycle, then n - 1 more. */
  lemma CountsOfPrefix(cs: seq<Cycle>, n: nat)
    requires 1 <= n <= |cs|
    ensures Triggers(cs[..n]) == (if cs[0].triggered == Answer(true) then 1 else 0) + Triggers(cs[1..][..n - 1])
    ensures UsbWakes(cs[..n]) == (if cs[0].wake & WakeByUsb != 0 then 1 else 0) + UsbWakes(cs[1..][..n - 1])
  {
    assert cs[..n][1..] == cs[1..][..n - 1];
  }

  /** Up to the first failed alarm query, the loop acknowledges the alarm
      and calls the application once per fired alarm. */
  lemma {:induction false} LoopTriggers(cs: seq<Cycle>)
    ensures var e := LoopSpec(cs); var n := Completed(cs);
      && multiset(e.trace)[Call.AcknowledgeAlarm] == Triggers(cs[..n])
      && multiset(e.trace)[Call.AppTriggered] == Triggers(cs[..n])
    decreases |cs|
  {
    if cs != [] && cs[0].triggered.Answer? {
      var rest := LoopSpec(cs[1..]).trace;
      LoopTriggers(cs[1..]);
      CycleTraceCounts(cs[0]);
      assert LoopSpec(cs).trace == CycleTrace(cs[0]) + rest;
      CountsOfPrefix(cs, Completed(cs));
    } else if cs != [] {
      assert cs[..0] == [];
    }
  }

  /** Up to the first failed alarm query, the loop calls the USB callback
      once per wake with the USB bit. */
  lemma {:induction false} LoopUsbWakes(cs: seq<Cycle>)
    ensures multiset(LoopSpec(cs).trace)[Call.AppUsbPowered] == UsbWakes(cs[..Completed(cs)])
    decreases |cs|
  {
    if cs != [] && cs[0].triggered.Answer? {
      var rest := LoopSpec(cs[1..]).trace;
      LoopUsbWakes(cs[1..]);
      CycleTraceCounts(cs[0]);
      assert LoopSpec(cs).trace == CycleTrace(cs[0]) + rest;
      CountsOfPrefix(cs, Completed(cs));
    } else if cs != [] {
      assert cs[..0] == [];
    }
  }

  /** Two scripts that differ only in the callbacks' and the
      acknowledgement's results. */
  predicate SameQueries(cs: seq<Cycle>, ds: seq<Cycle>) {
    |cs| == |ds| && forall i | 0 <= i < |cs| :: cs[i].triggered == ds[i].triggered && cs[i].wake == ds[i].wake
  }

  /** The loop ignores the application's callback errors and the
      acknowledgement's result: they change neither its calls nor its end. */
  lemma {:induction false} CallbackErrorsIgnored(cs: seq<Cycle>, ds: seq<Cycle>)
    requires SameQueries(cs, ds)
    ensures LoopSpec(cs).outcome == LoopSpec(ds).outcome && LoopSpec(cs).trace == LoopSpec(ds).trace
    decreases |cs|
  {
    if cs != [] {
      assert cs[0].triggered == ds[0].triggered && cs[0].wake == ds[0].wake;
      if cs[0].triggered.Answer? {
        assert SameQueries(cs[1..], ds[1..]) by {
          forall i | 0 <= i < |cs| - 1
            ensures cs[1..][i].triggered == ds[1..][i].triggered && cs[1..][i].wake == ds[1..][i].wake
          {
            assert cs[1..][i] == cs[i + 1] && ds[1..][i] == ds[i + 1];
          }
        }
        CallbackErrorsIgnored(cs[1..], ds[1..]);
        assert CycleTrace(cs[0]) == CycleTrace(ds[0]);
      }
    }
  }

  /** A fired alarm whose callback fails is still followed by deep sleep,
      a USB wake calls the USB callback, and the next iteration begins. */
  lemma TriggerErrorStillSleeps()
    ensures LoopSpec([
        Cycle(Answer(true), Ok, Err("sensor"), WakeByUsb, Err("usb")),
        Cycle(Answer(false), Ok, Ok, WakeByRtcAlarm, Ok),
        Cycle(Failed("i2c"), Ok, Ok, WakeUnknown, Ok)])
      == Execution(Fatal(AlarmQuery), [
        Call.IsAlarmTriggered, Call.AcknowledgeAlarm, Call.AppTriggered, Call.DeepSleep, Call.AppUsbPowered,
        Call.IsAlarmTriggered, Call.DeepSleep,
        Call.IsAlarmTriggered], [])
  {
    var c1 := Cycle(Answer(true), Ok, Err("sensor"), WakeByUsb, Err("usb"));
    var c2 := Cycle(Answer(false), Ok, Ok, WakeByRtcAlarm, Ok);
    var c3 := Cycle(Failed("i2c"), Ok, Ok, WakeUnknown, Ok);
    assert [c1, c2, c3][1..] == [c2, c3] && [c2, c3][1..] == [c3] && [c3][1..] == [];
    assert LoopSpec([c3]) == Execution(Fatal(AlarmQuery), [Call.IsAlarmTriggered], []);
    assert CycleTrace(c2) == [Call.IsAlarmTriggered, Call.DeepSleep];
    assert CycleTrace(c1) == [Call.IsAlarmTriggered, Call.AcknowledgeAlarm, Call.AppTriggered, Call.DeepSleep, Call.AppUsbPowered];
  }
}
