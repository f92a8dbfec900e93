// The heartbeat of the wireless charge supervisor (oplus_chg_heartbeat_work and the checks
// it calls) composed with the votable WLS_NOR_OUT_DISABLE, which switches the charger
// output off.
module Supervisor {
  import opened Common
  import opened CommConfig
  import Hysteresis
  import TempMonitorObject
  import BatteryFull
  import ChargerOvp
  import opened Voter

  // Readings of one heartbeat. Wireless presence is read three times (at the start and by
  // two of the checks) and `online` twice, and these readings may differ.
  datatype Tick = Tick(
    present: bool, presentAtTimeout: bool, presentAtBattery: bool,
    usbOnline: bool, onlineAtFull: bool, onlineAtVote: bool,
    fastStarted: bool, charging: bool, ffcIdle: bool, battGood: bool,
    vchg: ChargerOvp.Sample, temp: int, vbatMv: int, ibatMa: int, decCv: int,
    cbRc: int32)

  datatype Flags = Flags(
    chgDone: bool, rechargePending: bool, rechargeStatus: bool, timeOut: bool, battOvp: bool, timeoutCount: int)

  datatype State = State(
    temp: TempMonitorObject.TempState, full: BatteryFull.State, charger: ChargerOvp.State,
    flags: Flags, out: VotableState)

  ghost predicate Shaped(cfg: Config, s: State) {
    TempMonitorObject.ShapedState(cfg, s.temp) && Voter.Shaped(s.out)
  }

  // ---------------------------------------------------------------- the heartbeat

  function OutVote(out: VotableState, name: Name, on: bool, rc: int32): (r: VotableState)
    requires Voter.Shaped(out)
    ensures Voter.Shaped(r)
  {
    Apply(out, Vote(name, on, BoolToInt(on), false, rc)).state
  }

  // oplus_chg_check_charge_timeout.
  function Count(f: Flags, t: Tick): int {
    if (t.usbOnline || t.presentAtTimeout) && t.charging then f.timeoutCount + 1 else 0
  }

  predicate TimesOut(f: Flags, t: Tick) {
    !f.chgDone && Count(f, t) > CHG_TIMEOUT_COUNT
  }

  function CheckTimeout(s: State, t: Tick): (r: State)
    requires Voter.Shaped(s.out)
    ensures Voter.Shaped(r.out)
  {
    if s.flags.chgDone then s
    else
      var f := s.flags.(timeoutCount := Count(s.flags, t));
      if TimesOut(s.flags, t) then
        s.(flags := f.(timeOut := true),
           out := if !t.usbOnline && t.presentAtTimeout then OutVote(s.out, TIMEOUT_VOTER, true, t.cbRc) else s.out)
      else s.(flags := f)
  }

  function TempReading(t: Tick): TempMonitorObject.Reading {
    TempMonitorObject.Reading(t.temp, t.vbatMv, t.ffcIdle, t.fastStarted)
  }

  // oplus_chg_check_charger_uovp, which checks the temperature when the latch clears.
  function CheckCharger(cfg: Config, s: State, t: Tick): (r: State)
    requires Shaped(cfg, s)
    ensures Shaped(cfg, r)
  {
    var charger := ChargerOvp.Step(cfg, s.charger, t.vchg);
    s.(charger := charger,
       temp := if s.charger.chgOvp && !charger.chgOvp
               then TempMonitorObject.CheckBattTemp(cfg, s.temp, TempReading(t)).0 else s.temp)
  }

  // oplus_chg_check_battery_uovp.
  function CheckBattery(s: State, t: Tick): (r: State)
    requires Voter.Shaped(s.out)
    ensures Voter.Shaped(r.out)
  {
    if !t.usbOnline && !t.presentAtBattery then s
    else if t.vbatMv > BATT_SOFT_OVP_MV && !s.flags.battOvp then
      s.(flags := s.flags.(battOvp := true), out := OutVote(s.out, UOVP_VOTER, true, t.cbRc))
    else if t.vbatMv < BATT_SOFT_OVP_MV - 50 && s.flags.battOvp then
      s.(flags := s.flags.(battOvp := false), out := OutVote(s.out, UOVP_VOTER, false, t.cbRc))
    else s
  }

  function Region(cfg: Config, s: State, t: Tick): nat
    requires Shaped(cfg, s)
  {
    Hysteresis.RegionOf(s.temp.batt.dyn, t.temp)
  }

  function FullSample(cfg: Config, s: State, t: Tick): BatteryFull.Sample
    requires Shaped(cfg, s)
  {
    BatteryFull.Sample(t.ffcIdle, t.usbOnline || t.onlineAtFull, Region(cfg, s, t), t.vbatMv, t.ibatMa, t.decCv)
  }

  // The check for a full battery runs, and finds it full.
  predicate Fills(cfg: Config, s: State, t: Tick)
    requires Shaped(cfg, s)
  {
    !(s.flags.chgDone && !s.flags.rechargePending) && BatteryFull.Step(cfg, s.full, FullSample(cfg, s, t)).1
  }

  // oplus_chg_comm_check_term_current.
  function CheckTerm(cfg: Config, s: State, t: Tick): (r: State)
    requires Shaped(cfg, s)
    ensures Shaped(cfg, r)
  {
    if s.flags.chgDone && !s.flags.rechargePending then s
    else
      var s1 := s.(full := BatteryFull.Step(cfg, s.full, FullSample(cfg, s, t)).0);
      if !Fills(cfg, s, t) then s1
      else
        s1.(flags := s.flags.(chgDone := true, rechargePending := false),
            out := if !t.usbOnline && t.onlineAtVote then OutVote(s.out, USER_VOTER, true, t.cbRc) else s.out)
  }

  predicate Recharges(cfg: Config, s: State, t: Tick)
    requires Shaped(cfg, s)
  {
    var region := Region(cfg, s, t);
    && !s.charger.chgOvp && s.flags.chgDone && !s.flags.rechargePending
    && BATT_TEMP_UNKNOWN < region < BATT_TEMP_HOT
    && cfg.wlsVbatdetMv[region] - t.decCv >= t.vbatMv
  }

  function CheckRecharge(cfg: Config, s: State, t: Tick): (r: State)
    requires Shaped(cfg, s)
    ensures Shaped(cfg, r)
  {
    if Recharges(cfg, s, t) then
      s.(flags := s.flags.(rechargePending := true, rechargeStatus := true),
         out := OutVote(s.out, USER_VOTER, false, t.cbRc))
    else s
  }

  // The state before the battery-full check, and after all checks.
  function BeforeTerm(cfg: Config, s: State, t: Tick): (r: State)
    requires Shaped(cfg, s)
    ensures Shaped(cfg, r)
  {
    CheckBattery(CheckCharger(cfg, CheckTimeout(s, t), t), t)
  }

  function Checks(cfg: Config, s: State, t: Tick): (r: State)
    requires Shaped(cfg, s)
    ensures Shaped(cfg, r)
  {
    CheckRecharge(cfg, CheckTerm(cfg, BeforeTerm(cfg, s, t), t), t)
  }

  function Heartbeat(cfg: Config, s: State, t: Tick): (r: State)
    requires Shaped(cfg, s)
    ensures Shaped(cfg, r)
  {
    if !t.present then s
    else
      var s1 := if t.fastStarted then s else Checks(cfg, s, t);
      if !s1.charger.chgOvp && !s1.flags.timeOut && t.battGood
      then s1.(temp := TempMonitorObject.CheckBattTemp(cfg, s1.temp, TempReading(t)).0)
      else s1
  }

  // The regions that a heartbeat votes a float voltage for: when the charger latch clears,
  // and at its end.
  function One(vote: Option<nat>): seq<nat> {
    if vote.Some? then [vote.value] else []
  }

  function RecheckVotes(cfg: Config, s: State, t: Tick): seq<nat>
    requires Shaped(cfg, s)
  {
    if s.charger.chgOvp && !ChargerOvp.Step(cfg, s.charger, t.vchg).chgOvp
    then One(TempMonitorObject.CheckBattTemp(cfg, s.temp, TempReading(t)).1) else []
  }

  function HeartbeatVotes(cfg: Config, s: State, t: Tick): seq<nat>
    requires Shaped(cfg, s)
  {
    if !t.present then []
    else
      var s1 := if t.fastStarted then s else Checks(cfg, s, t);
      (if t.fastStarted then [] else RecheckVotes(cfg, s, t)) +
      (if !s1.charger.chgOvp && !s1.flags.timeOut && t.battGood
       then One(TempMonitorObject.CheckBattTemp(cfg, s1.temp, TempReading(t)).1) else [])
  }

  // The state that oplus_chg_comm_status_init leaves.
  const CLEARED := Flags(false, false, false, false, false, 0)

  function StatusInit(cfg: Config, s: State): State {
    s.(temp := TempMonitorObject.Initial(cfg), flags := CLEARED,
       charger := ChargerOvp.Initial(s.charger.overVoltCount, s.charger.notOverVoltCount))
  }

  // The reset of the wireless driver: it withdraws four votes, but not that of
  // TIMEOUT_VOTER, and then initialises the supervisor.
  function Withdrawn(out: VotableState, rc: int32): (r: VotableState)
    requires Voter.Shaped(out)
    ensures Voter.Shaped(r)
  {
    var o := OutVote(OutVote(out, FFC_VOTER, false, rc), USER_VOTER, false, rc);
    OutVote(OutVote(o, STOP_VOTER, false, rc), UOVP_VOTER, false, rc)
  }

  function Reset(cfg: Config, s: State, rc: int32): (r: State)
    requires Shaped(cfg, s)
    ensures Shaped(cfg, r)
  {
    StatusInit(cfg, s.(out := Withdrawn(s.out, rc)))
  }
}
