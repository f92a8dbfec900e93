// What runs of heartbeats do to the parts of the supervisor: each part goes through a
// trace of its own machine, so that what is proved about those traces holds of runs.
module SupervisorTrace {
  import opened Common
  import opened CommConfig
  import Hysteresis
  import TempMonitorObject
  import BatteryFull
  import ChargerOvp
  import Voter
  import opened Supervisor
  import opened SupervisorLaw

  // ------------------------------------------------------------------ the temperature

  // The temperature checks of one heartbeat: one if the charger latch clears on it, and one
  // at its end if the battery is good and neither the latch nor a timeout stands in the way.
  predicate Rechecks(cfg: Config, s: State, t: Tick)
    requires Supervisor.Shaped(cfg, s)
  {
    t.present && !t.fastStarted && s.charger.chgOvp && !Heartbeat(cfg, s, t).charger.chgOvp
  }

  predicate EndsWithCheck(cfg: Config, s: State, t: Tick)
    requires Supervisor.Shaped(cfg, s)
  {
    var r := Heartbeat(cfg, s, t);
    t.present && t.battGood && !r.charger.chgOvp && !r.flags.timeOut
  }

  function ChecksOf(cfg: Config, s: State, t: Tick): seq<TempMonitorObject.Reading>
    requires Supervisor.Shaped(cfg, s)
  {
    var reading := TempMonitorObject.Reading(t.temp, t.vbatMv, t.ffcIdle, t.fastStarted);
    (if Rechecks(cfg, s, t) then [reading] else []) + (if EndsWithCheck(cfg, s, t) then [reading] else [])
  }

  // The temperature checks of a run since the last driver reset, and the region that the
  // float voltage was last voted for.
  function ReadingsOf(cfg: Config, s: State, ops: seq<Op>): seq<TempMonitorObject.Reading>
    requires Supervisor.Shaped(cfg, s)
  {
    if |ops| == 0 then []
    else
      var k := |ops| - 1;
      match ops[k]
      case Beat(t) => ReadingsOf(cfg, s, ops[..k]) + ChecksOf(cfg, Run(cfg, s, ops[..k]), t)
      case OtherVote(_, _, _) => ReadingsOf(cfg, s, ops[..k])
      case DriverReset(_) => []
  }

  function FloatVoted(cfg: Config, s: State, ops: seq<Op>): Option<nat>
    requires Supervisor.Shaped(cfg, s)
  {
    if |ops| == 0 then None
    else
      var k := |ops| - 1;
      match ops[k]
      case Beat(t) => LastOf(FloatVoted(cfg, s, ops[..k]), HeartbeatVotes(cfg, Run(cfg, s, ops[..k]), t))
      case OtherVote(_, _, _) => FloatVoted(cfg, s, ops[..k])
      case DriverReset(_) => None
  }

  function LastOf(before: Option<nat>, votes: seq<nat>): Option<nat> {
    if |votes| == 0 then before else Some(votes[|votes| - 1])
  }

  function CheckIf(cfg: Config, s: TempMonitorObject.TempState, r: TempMonitorObject.Reading, now: bool)
    : (res: (TempMonitorObject.TempState, Option<nat>))
    requires TempMonitorObject.ShapedState(cfg, s)
    ensures TempMonitorObject.ShapedState(cfg, res.0)
  {
    if now then TempMonitorObject.CheckBattTemp(cfg, s, r) else (s, None)
  }

  lemma HeartbeatChecks(cfg: Config, s: State, t: Tick)
    requires Supervisor.Shaped(cfg, s)
    ensures var reading := TempMonitorObject.Reading(t.temp, t.vbatMv, t.ffcIdle, t.fastStarted);
            var (mid, vote1) := CheckIf(cfg, s.temp, reading, Rechecks(cfg, s, t));
            var (end, vote2) := CheckIf(cfg, mid, reading, EndsWithCheck(cfg, s, t));
            Heartbeat(cfg, s, t).temp == end && HeartbeatVotes(cfg, s, t) == One(vote1) + One(vote2)
  {
    if t.present && !t.fastStarted {
      ChecksKeepTemp(cfg, s, t);
    }
  }

  // Only the charger check has a part in the latch and the temperature.
  lemma BeforeTermKeeps(cfg: Config, s: State, t: Tick)
    requires Supervisor.Shaped(cfg, s)
    ensures var b := BeforeTerm(cfg, s, t); var c := CheckCharger(cfg, s, t);
            b.temp == c.temp && b.charger == c.charger && b.full == s.full
  {
    var s1 := CheckTimeout(s, t);
    var c := CheckCharger(cfg, s1, t);
    assert s1.temp == s.temp && s1.charger == s.charger && s1.full == s.full;
    assert c.temp == CheckCharger(cfg, s, t).temp && c.charger == CheckCharger(cfg, s, t).charger && c.full == s.full;
    BatteryKeeps(c, t);
  }

  lemma BatteryKeeps(s: State, t: Tick)
    requires Voter.Shaped(s.out)
    ensures var b := CheckBattery(s, t); b.temp == s.temp && b.charger == s.charger && b.full == s.full
  {
  }

  lemma AfterTermKeeps(cfg: Config, b: State, t: Tick)
    requires Supervisor.Shaped(cfg, b)
    ensures var r := CheckRecharge(cfg, CheckTerm(cfg, b, t), t); r.temp == b.temp && r.charger == b.charger
  {
  }

  lemma ChecksKeepTemp(cfg: Config, s: State, t: Tick)
    requires Supervisor.Shaped(cfg, s)
    ensures var c := Checks(cfg, s, t); var b := CheckCharger(cfg, s, t);
            c.temp == b.temp && c.charger == b.charger
  {
    BeforeTermKeeps(cfg, s, t);
    AfterTermKeeps(cfg, BeforeTerm(cfg, s, t), t);
  }

  lemma OneMoreCheck(cfg: Config, rs: seq<TempMonitorObject.Reading>, r: TempMonitorObject.Reading, now: bool)
    requires cfg.Shaped()
    ensures var (s, voted) := TempMonitorObject.LastVoted(cfg, rs);
            var (s', vote) := CheckIf(cfg, s, r, now);
            TempMonitorObject.LastVoted(cfg, rs + if now then [r] else []) == (s', LastOf(voted, One(vote)))
  {
    if now {
      assert (rs + [r])[..|rs|] == rs;
    } else {
      assert rs + [] == rs;
    }
  }

  lemma TwoMoreChecks(
    cfg: Config, rs: seq<TempMonitorObject.Reading>, s: State, t: Tick, voted: Option<nat>)
    requires Supervisor.Shaped(cfg, s) && TempMonitorObject.LastVoted(cfg, rs) == (s.temp, voted)
    ensures TempMonitorObject.LastVoted(cfg, rs + ChecksOf(cfg, s, t)) ==
            (Heartbeat(cfg, s, t).temp, LastOf(voted, HeartbeatVotes(cfg, s, t)))
  {
    var r := TempMonitorObject.Reading(t.temp, t.vbatMv, t.ffcIdle, t.fastStarted);
    var a, b := Rechecks(cfg, s, t), EndsWithCheck(cfg, s, t);
    HeartbeatChecks(cfg, s, t);
    OneMoreCheck(cfg, rs, r, a);
    OneMoreCheck(cfg, rs + if a then [r] else [], r, b);
    assert rs + ChecksOf(cfg, s, t) == (rs + if a then [r] else []) + if b then [r] else [];
  }

  // Over any run the thresholds, the flags and the last float-voltage vote are those of the
  // trace of its temperature checks.
  lemma {:induction false} TemperatureIsTrace(cfg: Config, s: State, ops: seq<Op>)
    requires Supervisor.Shaped(cfg, s) && s.temp == TempMonitorObject.Initial(cfg)
    ensures TempMonitorObject.LastVoted(cfg, ReadingsOf(cfg, s, ops)) == (Run(cfg, s, ops).temp, FloatVoted(cfg, s, ops))
  {
    if |ops| > 0 {
      var k := |ops| - 1;
      TemperatureIsTrace(cfg, s, ops[..k]);
      if ops[k].Beat? {
        TwoMoreChecks(cfg, ReadingsOf(cfg, s, ops[..k]), Run(cfg, s, ops[..k]), ops[k].t, FloatVoted(cfg, s, ops[..k]));
      }
    }
  }

  lemma {:induction false} ChecksKeepOneShift(cfg: Config, rs: seq<TempMonitorObject.Reading>)
    requires cfg.Shaped()
    ensures Hysteresis.OneShift(cfg.battTempThr, TempMonitorObject.LastVoted(cfg, rs).0.batt)
  {
    if |rs| > 0 {
      var k := |rs| - 1;
      ChecksKeepOneShift(cfg, rs[..k]);
      var h := TempMonitorObject.LastVoted(cfg, rs[..k]).0.batt;
      CheckKeepsOneShift(cfg.battTempThr, h, rs[k].temp);
    }
  }

  lemma CheckKeepsOneShift(thr: seq<int>, h: Hysteresis.Thresholds, temp: int)
    requires Hysteresis.OneShift(thr, h)
    ensures var h' := Hysteresis.BattStep(thr, h, temp);
            && Hysteresis.OneShift(thr, h')
            && (Hysteresis.Ascending(thr) ==> h'.region == Hysteresis.RegionOf(h'.dyn, temp))
  {
    var to := Hysteresis.RegionOf(h.dyn, temp);
    var h0 := if h.region == Hysteresis.Invalid(thr) then h.(region := to) else h;
    Hysteresis.MoveKeepsOneShift(thr, h0, to);
    if Hysteresis.Ascending(thr) {
      Hysteresis.MoveIsStable(thr, h0, temp);
    }
  }

  // A heartbeat with a good battery and no FFC session, on which neither the charger latch
  // nor a timeout stands in the way, ends in the region of its temperature and with every
  // change voted. One that makes no check leaves the temperature alone.
  lemma HeartbeatFollowsTemperature(cfg: Config, s: State, ops: seq<Op>, t: Tick)
    requires Supervisor.Shaped(cfg, s) && s.temp == TempMonitorObject.Initial(cfg)
    requires Hysteresis.Ascending(cfg.battTempThr)
    ensures var before := Run(cfg, s, ops); var r := Heartbeat(cfg, before, t);
            && (t.present && t.battGood && t.ffcIdle && !r.charger.chgOvp && !r.flags.timeOut ==>
                  r.temp.batt.region == Hysteresis.RegionOf(r.temp.batt.dyn, t.temp) && !r.temp.isPowerChanged)
            && (!Rechecks(cfg, before, t) && !EndsWithCheck(cfg, before, t) ==>
                  r.temp == before.temp && HeartbeatVotes(cfg, before, t) == [])
  {
    var before := Run(cfg, s, ops);
    var rs := ReadingsOf(cfg, s, ops);
    TemperatureIsTrace(cfg, s, ops);
    ChecksKeepOneShift(cfg, rs);
    HeartbeatChecks(cfg, before, t);
    CheckKeepsOneShift(cfg.battTempThr, before.temp.batt, t.temp);
    CheckKeepsOneShift(cfg.battTempThr, Hysteresis.BattStep(cfg.battTempThr, before.temp.batt, t.temp), t.temp);
  }

  // So the temperature, as the checks of a run read it, travels at least 21 units for each
  // time that the region turns back.
  lemma RunTurnsSlowly(cfg: Config, s: State, ops: seq<Op>)
    requires Supervisor.Shaped(cfg, s) && s.temp == TempMonitorObject.Initial(cfg)
    requires Hysteresis.Gaps(cfg.battTempThr, 20)
    ensures var xs := TempMonitorObject.SamplesOf(ReadingsOf(cfg, s, ops));
            && Hysteresis.Observe(cfg.battTempThr, xs).h == Run(cfg, s, ops).temp.batt
            && 21 * Hysteresis.Observe(cfg.battTempThr, xs).reversals <= Hysteresis.TotalVariation(xs)
  {
    var rs := ReadingsOf(cfg, s, ops);
    TemperatureIsTrace(cfg, s, ops);
    TempMonitorObject.ChecksAreObserved(cfg, rs);
    Hysteresis.ReversalsBoundedByTravel(cfg.battTempThr, TempMonitorObject.SamplesOf(rs));
  }

  lemma {:induction false} SlowReadings(cfg: Config, s: State, ops: seq<Op>)
    requires Supervisor.Shaped(cfg, s)
    requires forall op :: op in ops && op.Beat? ==> !op.t.fastStarted
    ensures forall r :: r in ReadingsOf(cfg, s, ops) ==> !r.fastStarted
  {
    if |ops| > 0 {
      var k := |ops| - 1;
      assert forall op :: op in ops[..k] ==> op in ops;
      assert ops[k] in ops;
      SlowReadings(cfg, s, ops[..k]);
    }
  }

  // Without fast charging the float voltage in force after a run is that of the region, once
  // there has been a check outside an FFC session.
  lemma RunVotesFloatVoltage(cfg: Config, s: State, ops: seq<Op>)
    requires Supervisor.Shaped(cfg, s) && s.temp == TempMonitorObject.Initial(cfg)
    requires forall op :: op in ops && op.Beat? ==> !op.t.fastStarted
    ensures if TempMonitorObject.NoneEvaluated(ReadingsOf(cfg, s, ops)) then FloatVoted(cfg, s, ops).None?
            else FloatVoted(cfg, s, ops) == Some(Run(cfg, s, ops).temp.batt.region)
  {
    var rs := ReadingsOf(cfg, s, ops);
    TemperatureIsTrace(cfg, s, ops);
    SlowReadings(cfg, s, ops);
    TempMonitorObject.FloatVoltageFollowsRegion(cfg, rs);
    TempMonitorObject.FlagsFollowReadings(cfg, rs);
  }

  // ------------------------------------------------------------------ the charger voltage

  // The samples of a run since the last driver reset, and where that left the latch.
  function SamplesOf(ops: seq<Op>): seq<ChargerOvp.Sample> {
    if |ops| == 0 then []
    else
      var k := |ops| - 1;
      match ops[k]
      case Beat(t) => SamplesOf(ops[..k]) + if t.present && !t.fastStarted then [t.vchg] else []
      case OtherVote(_, _, _) => SamplesOf(ops[..k])
      case DriverReset(_) => []
  }

  function LatchStart(cfg: Config, s: State, ops: seq<Op>): ChargerOvp.State
    requires Supervisor.Shaped(cfg, s)
  {
    if |ops| == 0 then s.charger
    else
      var k := |ops| - 1;
      var before := Run(cfg, s, ops[..k]).charger;
      if ops[k].DriverReset? then ChargerOvp.State(false, false, before.overVoltCount, before.notOverVoltCount)
      else LatchStart(cfg, s, ops[..k])
  }

  lemma HeartbeatSamples(cfg: Config, s: State, t: Tick)
    requires Supervisor.Shaped(cfg, s)
    ensures Heartbeat(cfg, s, t).charger ==
            if t.present && !t.fastStarted then ChargerOvp.Step(cfg, s.charger, t.vchg) else s.charger
  {
    ChecksKeepTemp(cfg, s, t);
  }

  lemma HeartbeatExtendsTrace(
    cfg: Config, s: State, t: Tick, c: ChargerOvp.State, xs: seq<ChargerOvp.Sample>)
    requires Supervisor.Shaped(cfg, s) && s.charger == ChargerOvp.Run(cfg, c, xs)
    ensures Heartbeat(cfg, s, t).charger ==
            ChargerOvp.Run(cfg, c, xs + if t.present && !t.fastStarted then [t.vchg] else [])
  {
    HeartbeatSamples(cfg, s, t);
    OneMoreSample(cfg, c, xs, t.vchg);
    assert xs + [] == xs;
  }

  lemma OneMoreSample(cfg: Config, c: ChargerOvp.State, xs: seq<ChargerOvp.Sample>, x: ChargerOvp.Sample)
    ensures ChargerOvp.Run(cfg, c, xs + [x]) == ChargerOvp.Step(cfg, ChargerOvp.Run(cfg, c, xs), x)
  {
    assert (xs + [x])[..|xs|] == xs;
  }

  // The latch goes through the trace of the voltages that the heartbeats of a run sample.
  lemma {:induction false} LatchIsTrace(cfg: Config, s: State, ops: seq<Op>)
    requires Supervisor.Shaped(cfg, s)
    ensures Run(cfg, s, ops).charger == ChargerOvp.Run(cfg, LatchStart(cfg, s, ops), SamplesOf(ops))
  {
    if |ops| > 0 {
      var k := |ops| - 1;
      LatchIsTrace(cfg, s, ops[..k]);
      if ops[k].Beat? {
        HeartbeatExtendsTrace(cfg, Run(cfg, s, ops[..k]), ops[k].t, LatchStart(cfg, s, ops[..k]), SamplesOf(ops[..k]));
      }
    }
  }

  // ------------------------------------------------------------------ the full battery

  // The heartbeat looks for a full battery.
  predicate LooksForFull(s: State, t: Tick) {
    t.present && !t.fastStarted && (s.flags.chgDone ==> s.flags.rechargePending)
  }

  // The sample it takes. Its region is that of the thresholds as a clearing charger latch
  // may just have moved them.
  function FullSampleOf(cfg: Config, s: State, t: Tick): BatteryFull.Sample
    requires Supervisor.Shaped(cfg, s)
  {
    var reading := TempMonitorObject.Reading(t.temp, t.vbatMv, t.ffcIdle, t.fastStarted);
    var temp := CheckIf(cfg, s.temp, reading, Rechecks(cfg, s, t)).0;
    BatteryFull.Sample(t.ffcIdle, t.usbOnline || t.onlineAtFull, Hysteresis.RegionOf(temp.batt.dyn, t.temp),
                       t.vbatMv, t.ibatMa, t.decCv)
  }

  function FullSamples(cfg: Config, s: State, ops: seq<Op>): seq<BatteryFull.Sample>
    requires Supervisor.Shaped(cfg, s)
  {
    if |ops| == 0 then []
    else
      var k := |ops| - 1;
      var before := Run(cfg, s, ops[..k]);
      FullSamples(cfg, s, ops[..k]) +
      if ops[k].Beat? && LooksForFull(before, ops[k].t) then [FullSampleOf(cfg, before, ops[k].t)] else []
  }

  lemma SampleIs(cfg: Config, s: State, t: Tick)
    requires Supervisor.Shaped(cfg, s) && t.present && !t.fastStarted
    ensures FullSample(cfg, BeforeTerm(cfg, s, t), t) == FullSampleOf(cfg, s, t)
  {
    BeforeTermKeeps(cfg, s, t);
    ChecksKeepTemp(cfg, s, t);
    assert Heartbeat(cfg, s, t).charger == CheckCharger(cfg, s, t).charger;
  }

  lemma TermLooks(cfg: Config, b: State, t: Tick)
    requires Supervisor.Shaped(cfg, b)
    ensures var r := CheckRecharge(cfg, CheckTerm(cfg, b, t), t); var done := b.flags.chgDone && !b.flags.rechargePending;
            && r.full == (if done then b.full else BatteryFull.Step(cfg, b.full, FullSample(cfg, b, t)).0)
            && Fills(cfg, b, t) == (!done && BatteryFull.Step(cfg, b.full, FullSample(cfg, b, t)).1)
  {
  }

  lemma HeartbeatLooks(cfg: Config, s: State, t: Tick)
    requires Supervisor.Shaped(cfg, s)
    ensures Heartbeat(cfg, s, t).full ==
            if LooksForFull(s, t) then BatteryFull.Step(cfg, s.full, FullSampleOf(cfg, s, t)).0 else s.full
    ensures LooksForFull(s, t) ==>
              Fills(cfg, BeforeTerm(cfg, s, t), t) == BatteryFull.Step(cfg, s.full, FullSampleOf(cfg, s, t)).1
  {
    if t.present && !t.fastStarted {
      BeforeTermSetsFlags(cfg, s, t);
      BeforeTermKeeps(cfg, s, t);
      SampleIs(cfg, s, t);
      TermLooks(cfg, BeforeTerm(cfg, s, t), t);
    }
  }

  // The statics of the check go through the trace of the samples of a run, across driver
  // resets too.
  lemma {:induction false} FullIsTrace(cfg: Config, s: State, ops: seq<Op>)
    requires Supervisor.Shaped(cfg, s) && s.full == BatteryFull.INITIAL
    ensures Run(cfg, s, ops).full == BatteryFull.Run(cfg, FullSamples(cfg, s, ops))
  {
    if |ops| > 0 {
      var k := |ops| - 1;
      var xs := FullSamples(cfg, s, ops[..k]);
      FullIsTrace(cfg, s, ops[..k]);
      assert xs + [] == xs;
      if ops[k].Beat? {
        var x := FullSampleOf(cfg, Run(cfg, s, ops[..k]), ops[k].t);
        HeartbeatLooks(cfg, Run(cfg, s, ops[..k]), ops[k].t);
        assert (xs + [x])[..|xs|] == xs;
      }
    }
  }

  // After any run, a heartbeat finds charging done if and only if it was, or the heartbeat
  // looks and one of the two criteria has held for long enough over the samples so far.
  lemma DoneIffReported(cfg: Config, s: State, ops: seq<Op>, t: Tick)
    requires Supervisor.Shaped(cfg, s) && s.full == BatteryFull.INITIAL
    ensures var before := Run(cfg, s, ops); var xs := FullSamples(cfg, s, ops) + [FullSampleOf(cfg, before, t)];
            Heartbeat(cfg, before, t).flags.chgDone <==>
            before.flags.chgDone ||
            (LooksForFull(before, t) && (BatteryFull.Reported(cfg, BatteryFull.Sw, xs) || BatteryFull.Reported(cfg, BatteryFull.Hw, xs)))
  {
    var before := Run(cfg, s, ops);
    FullIsTrace(cfg, s, ops);
    HeartbeatLooks(cfg, before, t);
    ChecksSetFlags(cfg, before, t);
    BatteryFull.FullIffReported(cfg, FullSamples(cfg, s, ops), FullSampleOf(cfg, before, t));
  }

  // ------------------------------------------------------------------ the driver reset

  // A driver reset clears every flag and restores every threshold; the counters of the
  // charger latch and the statics of the full-battery check survive it.
  lemma ResetClears(cfg: Config, s: State, rc: int32)
    requires Supervisor.Shaped(cfg, s)
    ensures var r := Reset(cfg, s, rc); var f := r.flags;
            && !f.chgDone && !f.rechargePending && !f.rechargeStatus && !f.timeOut && !f.battOvp && f.timeoutCount == 0
            && r.temp.batt == Hysteresis.Thresholds(cfg.battTempThr, 9)
            && r.temp.ffc == Hysteresis.Thresholds(cfg.ffcTempThr, 4)
            && r.temp.isPowerChanged && !r.temp.battVolHigh
            && r.charger == ChargerOvp.State(false, false, s.charger.overVoltCount, s.charger.notOverVoltCount)
            && r.full == s.full
  {
  }
}
