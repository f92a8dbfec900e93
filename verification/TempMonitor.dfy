// The battery and FFC temperature regions of struct oplus_chg_comm, kept in place.
module TempMonitorObject {
  import opened Common
  import opened CommConfig
  import opened Hysteresis

  datatype TempState = TempState(batt: Thresholds, ffc: Thresholds, isPowerChanged: bool, battVolHigh: bool)

  // Readings taken by one temperature check. `ffcIdle` says that no FFC session runs.
  datatype Reading = Reading(temp: int, vbatMv: int, ffcIdle: bool, fastStarted: bool)

  ghost predicate ShapedState(cfg: Config, s: TempState) {
    && cfg.Shaped()
    && |s.batt.dyn| == |cfg.battTempThr|
    && |s.ffc.dyn| == |cfg.ffcTempThr|
  }

  // The state oplus_chg_comm_status_init leaves.
  function Initial(cfg: Config): TempState {
    TempState(Fresh(cfg.battTempThr), Fresh(cfg.ffcTempThr), true, false)
  }

  // While wireless fast charging runs, only the step between cool and little cool counts
  // as a change of power.
  predicate RegionChangesPower(from: nat, to: nat, fastStarted: bool) {
    && from != to
    && (!fastStarted
        || (from == BATT_TEMP_LITTLE_COOL && to == BATT_TEMP_COOL)
        || (from == BATT_TEMP_COOL && to == BATT_TEMP_LITTLE_COOL))
  }

  function VolHigh(cfg: Config, high: bool, vbatMv: int): bool {
    if vbatMv > cfg.battCurrLimitThrMv then true
    else if vbatMv < cfg.battCurrLimitThrMv - BATT_TEMP_HYST then false
    else high
  }

  // oplus_chg_comm_check_batt_temp; the result also says for which region a float
  // voltage is voted, if one is.
  function CheckBattTemp(cfg: Config, s: TempState, r: Reading): (TempState, Option<nat>)
    requires ShapedState(cfg, s)
  {
    if !r.ffcIdle then (s, None)
    else
      var batt := BattStep(cfg.battTempThr, s.batt, r.temp);
      var from := if s.batt.region == BATT_TEMP_INVALID then batt.region else s.batt.region;
      var high := VolHigh(cfg, s.battVolHigh, r.vbatMv);
      var changed := s.isPowerChanged || RegionChangesPower(from, batt.region, r.fastStarted) || high != s.battVolHigh;
      (TempState(batt, s.ffc, false, high), if changed then Some(batt.region) else None)
  }

  // The region that was last given a float voltage, over a trace of checks.
  function LastVoted(cfg: Config, rs: seq<Reading>): (res: (TempState, Option<nat>))
    requires cfg.Shaped()
    ensures ShapedState(cfg, res.0)
  {
    if |rs| == 0 then (Initial(cfg), None)
    else
      var (s, voted) := LastVoted(cfg, rs[..|rs| - 1]);
      var (s', vote) := CheckBattTemp(cfg, s, rs[|rs| - 1]);
      (s', if vote.Some? then vote else voted)
  }

  // Away from wireless fast charging, the float voltage in force is that of the region.
  lemma {:induction false} FloatVoltageFollowsRegion(cfg: Config, rs: seq<Reading>)
    requires cfg.Shaped()
    requires forall r :: r in rs ==> !r.fastStarted
    ensures var (s, voted) := LastVoted(cfg, rs);
            if s.isPowerChanged then s == Initial(cfg) && voted.None?
            else voted == Some(s.batt.region) && s.batt.region <= BATT_TEMP_HOT
  {
    if |rs| > 0 {
      var k := |rs| - 1;
      assert forall r :: r in rs[..k] ==> r in rs;
      FloatVoltageFollowsRegion(cfg, rs[..k]);
      assert rs[k] in rs;
    }
  }

  // ------------------------------------------------------------- exactly when it votes

  // The voltage flag stands for the last reading outside the band below the limit.
  function HighAfter(cfg: Config, rs: seq<Reading>): bool {
    if |rs| == 0 then false
    else
      var r := rs[|rs| - 1];
      if r.ffcIdle && r.vbatMv > cfg.battCurrLimitThrMv then true
      else if r.ffcIdle && r.vbatMv < cfg.battCurrLimitThrMv - 20 then false
      else HighAfter(cfg, rs[..|rs| - 1])
  }

  predicate NoneEvaluated(rs: seq<Reading>) {
    forall r :: r in rs ==> !r.ffcIdle
  }

  lemma {:induction false} FlagsFollowReadings(cfg: Config, rs: seq<Reading>)
    requires cfg.Shaped()
    ensures var s := LastVoted(cfg, rs).0;
            && s.battVolHigh == HighAfter(cfg, rs)
            && (s.isPowerChanged <==> NoneEvaluated(rs))
            && (s.batt.region == BATT_TEMP_INVALID <==> NoneEvaluated(rs))
  {
    if |rs| > 0 {
      var k := |rs| - 1;
      assert forall r :: r in rs <==> r in rs[..k] || r == rs[k];
      FlagsFollowReadings(cfg, rs[..k]);
    }
  }

  // After any trace of checks, with or without fast charging: a check during an FFC session
  // does nothing; any other votes if and only if it is the first, or the voltage flag
  // turns, or the region changes and that counts, as with fast charging it does between
  // regions 3 and 4 only. The vote is for the region found.
  lemma VotesExactly(cfg: Config, rs: seq<Reading>, r: Reading)
    requires cfg.Shaped()
    ensures var s := LastVoted(cfg, rs).0; var (s', vote) := CheckBattTemp(cfg, s, r);
            var from, to := s.batt.region, s'.batt.region;
            if !r.ffcIdle then s' == s && vote.None?
            else
              && to == RegionOf(s.batt.dyn, r.temp)
              && (vote.Some? ==> vote.value == to)
              && (vote.Some? <==>
                    || NoneEvaluated(rs)
                    || HighAfter(cfg, rs + [r]) != HighAfter(cfg, rs)
                    || (from != to && (!r.fastStarted || (from == 3 && to == 4) || (from == 4 && to == 3))))
  {
    FlagsFollowReadings(cfg, rs);
    assert (rs + [r])[..|rs|] == rs;
  }

  function SamplesOf(rs: seq<Reading>): seq<Sample> {
    seq(|rs|, i requires 0 <= i < |rs| => Sample(rs[i].temp, rs[i].ffcIdle))
  }

  // The battery thresholds over a trace of checks are those of the trace of temperatures.
  lemma {:induction false} ChecksAreObserved(cfg: Config, rs: seq<Reading>)
    requires cfg.Shaped()
    ensures LastVoted(cfg, rs).0.batt == Observe(cfg.battTempThr, SamplesOf(rs)).h
    ensures LastVoted(cfg, rs).0.ffc == Fresh(cfg.ffcTempThr)
  {
    if |rs| > 0 {
      var k := |rs| - 1;
      ChecksAreObserved(cfg, rs[..k]);
      assert SamplesOf(rs)[..k] == SamplesOf(rs[..k]);
    }
  }

  class TempMonitor {
    const cfg: Config
    const battDyn: array<int>
    const ffcDyn: array<int>
    var tempRegion: nat
    var ffcTempRegion: nat
    var isPowerChanged: bool
    var battVolHigh: bool

    ghost predicate Valid()
      reads this, battDyn, ffcDyn
    {
      && cfg.Shaped()
      && battDyn != ffcDyn
      && battDyn.Length == |cfg.battTempThr|
      && ffcDyn.Length == |cfg.ffcTempThr|
    }

    ghost function View(): TempState
      reads this, battDyn, ffcDyn
    {
      TempState(Thresholds(battDyn[..], tempRegion), Thresholds(ffcDyn[..], ffcTempRegion), isPowerChanged, battVolHigh)
    }

    // The thresholds and regions that oplus_chg_comm_status_init leaves.
    constructor (cfg: Config)
      requires cfg.Shaped()
      ensures Valid() && this.cfg == cfg && View() == Initial(cfg)
      ensures fresh(battDyn) && fresh(ffcDyn)
    {
      this.cfg := cfg;
      battDyn := new int[BATT_TEMP_INVALID - 1](i requires 0 <= i < |cfg.battTempThr| => cfg.battTempThr[i]);
      ffcDyn := new int[FFC_TEMP_INVALID - 1](i requires 0 <= i < |cfg.ffcTempThr| => cfg.ffcTempThr[i]);
      tempRegion, ffcTempRegion := BATT_TEMP_INVALID, FFC_TEMP_INVALID;
      isPowerChanged, battVolHigh := true, false;
      new;
      assert battDyn[..] == cfg.battTempThr && ffcDyn[..] == cfg.ffcTempThr;
    }

    method StatusInit()
      requires Valid()
      modifies this, battDyn, ffcDyn
      ensures Valid() && View() == Initial(cfg)
    {
      isPowerChanged, battVolHigh := true, false;
      tempRegion, ffcTempRegion := BATT_TEMP_INVALID, FFC_TEMP_INVALID;
      Copy(battDyn, cfg.battTempThr);
      Copy(ffcDyn, cfg.ffcTempThr);
    }

    method EnterRegion(region: nat, fastStarted: bool)
      requires Valid()
      modifies this, battDyn
      ensures Valid()
      ensures View() == old(View()).(
                          batt := Moved(cfg.battTempThr, old(View()).batt, region),
                          isPowerChanged := old(isPowerChanged) || RegionChangesPower(old(tempRegion), region, fastStarted))
    {
      if tempRegion != region {
        Shift(cfg.battTempThr, battDyn, tempRegion, region);
        if !fastStarted
          || (tempRegion == BATT_TEMP_LITTLE_COOL && region == BATT_TEMP_COOL)
          || (tempRegion == BATT_TEMP_COOL && region == BATT_TEMP_LITTLE_COOL) {
          isPowerChanged := true;
        }
        tempRegion := region;
      }
    }

    method CheckVoltage(vbatMv: int)
      modifies this`battVolHigh, this`isPowerChanged
      ensures battVolHigh == VolHigh(cfg, old(battVolHigh), vbatMv)
      ensures isPowerChanged == (old(isPowerChanged) || battVolHigh != old(battVolHigh))
    {
      if vbatMv > cfg.battCurrLimitThrMv && !battVolHigh {
        battVolHigh, isPowerChanged := true, true;
      } else if vbatMv < cfg.battCurrLimitThrMv - BATT_TEMP_HYST && battVolHigh {
        battVolHigh, isPowerChanged := false, true;
      }
    }

    method CheckTemp(r: Reading) returns (vote: Option<nat>)
      requires Valid()
      modifies this, battDyn
      ensures Valid()
      ensures (View(), vote) == CheckBattTemp(cfg, old(View()), r)
    {
      vote := None;
      if !r.ffcIdle {
        return;
      }
      var region := Locate(battDyn, r.temp);
      if tempRegion == BATT_TEMP_INVALID {
        tempRegion := region;
      }
      EnterRegion(region, r.fastStarted);
      CheckVoltage(r.vbatMv);
      if isPowerChanged {
        isPowerChanged, vote := false, Some(region);
      }
    }

    method GetTempRegion(temp: int) returns (region: nat)
      requires Valid()
      ensures region == RegionOf(View().batt.dyn, temp)
    {
      region := Locate(battDyn, temp);
    }

    method GetFfcTempRegion(temp: int) returns (region: nat)
      requires Valid()
      modifies this`ffcTempRegion, ffcDyn
      ensures Valid()
      ensures View() == old(View()).(ffc := FfcStep(cfg.ffcTempThr, old(View()).ffc, temp))
      ensures region == ffcTempRegion
    {
      region := Locate(ffcDyn, temp);
      if ffcTempRegion != region {
        Shift(cfg.ffcTempThr, ffcDyn, ffcTempRegion, region);
        ffcTempRegion := region;
      }
    }
  }

  method Locate(dyn: array<int>, temp: int) returns (region: nat)
    ensures region == RegionOf(dyn[..], temp)
  {
    region := 0;
    while region < dyn.Length
      invariant region <= dyn.Length
      invariant RegionFrom(dyn[..], temp, region) == RegionOf(dyn[..], temp)
    {
      if temp < dyn[region] {
        return;
      }
      region := region + 1;
    }
  }

  method Copy(dyn: array<int>, cfg: seq<int>)
    requires dyn.Length == |cfg|
    modifies dyn
    ensures dyn[..] == cfg
  {
    for i := 0 to dyn.Length
      invariant dyn[..i] == cfg[..i]
    {
      dyn[i] := cfg[i];
    }
  }

  // The loop that follows a change of region.
  method Shift(cfg: seq<int>, dyn: array<int>, from: nat, to: nat)
    requires dyn.Length == |cfg| && from != to
    modifies dyn
    ensures dyn[..] == Shifted(cfg, old(dyn[..]), from, to)
  {
    for i := 0 to dyn.Length
      invariant forall j :: 0 <= j < i ==> dyn[j] == Shifted(cfg, old(dyn[..]), from, to)[j]
      invariant forall j :: i <= j < dyn.Length ==> dyn[j] == old(dyn[j])
    {
      if from > to && i == to {
        dyn[i] := dyn[i] + BATT_TEMP_HYST;
      } else if from < to && i == to - 1 {
        dyn[i] := dyn[i] - BATT_TEMP_HYST;
      } else {
        dyn[i] := cfg[i];
      }
    }
  }
}
