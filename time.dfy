/** The alarm bootstrap: set the system clock from the real-time clock,
    then make sure a periodic wake-up alarm is installed. */
module Time {
  import opened Capabilities

  /** What a command sequence returned and the calls it made. */
  datatype Step = Step(err: Outcome, trace: seq<Call>)

  /** The alarm installed when none is configured: every minute, two
      seconds past the minute. */
  const DefaultAlarm: Call := Call.SetPeriodicAlarm(2, RtcSecs)

  /** The bootstrap against the clock's answers `r`. */
  function InitTimeSpec(r: Responses): Step {
    if r.setTime.Err? then
      Step(r.setTime, [Call.SetTimeFromRtc])
    else if r.alarmEnabled.Failed? then
      Step(Err(r.alarmEnabled.error), [Call.SetTimeFromRtc, Call.IsAlarmEnabled])
    else if r.alarmEnabled.value then
      Step(Ok, [Call.SetTimeFromRtc, Call.IsAlarmEnabled])
    else
      Step(r.setAlarm, [Call.SetTimeFromRtc, Call.IsAlarmEnabled, DefaultAlarm])
  }

  /** The bootstrap succeeds iff the clock was read, the alarm status was
      read, and either an alarm was already enabled or installing the
      default one succeeded. The default alarm is installed exactly when no
      alarm is enabled, and then once. Every error is passed on unchanged:
      a failed clock read stops before the alarm status is queried. */
  lemma InitTimeProperties(r: Responses)
    ensures var s := InitTimeSpec(r);
      && (s.err.Ok? <==> r.setTime.Ok? && r.alarmEnabled.Answer? && (r.alarmEnabled.value || r.setAlarm.Ok?))
      && (DefaultAlarm in s.trace <==> r.setTime.Ok? && r.alarmEnabled == Answer(false))
      && multiset(s.trace)[DefaultAlarm] <= 1
      && (forall i | 0 <= i < |s.trace| :: s.trace[i] in {Call.SetTimeFromRtc, Call.IsAlarmEnabled, DefaultAlarm})
      && |s.trace| >= 1 && s.trace[0] == Call.SetTimeFromRtc
      && (r.setTime.Err? ==> s.err == r.setTime && s.trace == [Call.SetTimeFromRtc])
      && (r.setTime.Ok? && r.alarmEnabled.Failed? ==> s.err == Err(r.alarmEnabled.error) && DefaultAlarm !in s.trace)
      && (r.setTime.Ok? && r.alarmEnabled == Answer(false) ==> s.err == r.setAlarm)
  {
  }

  /** The bootstrap reads the clock first and makes no other call than
      the alarm query and the alarm installation. */
  lemma InitTimeCalls(r: Responses)
    ensures var t := InitTimeSpec(r).trace;
      && Call.SetTimeFromRtc in t
      && Call.InitializePreRtc !in t && Call.GetRtc !in t && Call.InitializePostRtc !in t
      && Call.AppInitialize !in t && Call.IsAlarmTriggered !in t
  {
  }

  /** Sets the time from the clock and installs the default alarm if none
      is enabled, returning the first error met. */
  method InitTime(rtc: Environment) returns (err: Outcome)
    modifies rtc
    ensures err == InitTimeSpec(rtc.responses).err
    ensures rtc.trace == old(rtc.trace) + InitTimeSpec(rtc.responses).trace
    ensures rtc.cycles == old(rtc.cycles) && rtc.current == old(rtc.current)
  {
    err := rtc.SetTimeFromRtc();
    if err.Err? {
      return;
    }
    var alarmEn := rtc.IsAlarmEnabled();
    if alarmEn.Failed? {
      return Err(alarmEn.error);
    }
    if !alarmEn.value {
      err := rtc.SetPeriodicAlarm(2, RtcSecs);
      if err.Err? {
        return;
      }
    }
    return Ok;
  }
}
