// When is the charger output disabled? The law of the supervisor and its votable.
module SupervisorLaw {
  import opened Common
  import opened CommConfig
  import BatteryFull
  import Hysteresis
  import ChargerOvp
  import TempMonitorObject
  import opened Voter
  import opened VoterRefinement
  import opened Supervisor

  // The supervisor's own voters.
  const OWN := {USER_VOTER, TIMEOUT_VOTER, UOVP_VOTER}

  predicate On(out: VotableState, n: Name)
    requires out.table.Valid()
  {
    n in Ballot(out.table) && Ballot(out.table)[n].enabled
  }

  // A SET_ANY votable that is neither overridden nor forced, with room for the
  // supervisor's voters beside `others`.
  ghost predicate Usable(out: VotableState, others: set<Name>) {
    && Wf(out) && out.kind.VoteSetAny? && !out.forceActive && out.overrideResult == -EINVAL
    && OWN !! others && |others| + 3 <= NUM_MAX_CLIENTS
    && Ballot(out.table).Keys <= others + OWN
  }

  ghost predicate UserAgrees(s: State) {
    Voter.Shaped(s.out) && (On(s.out, USER_VOTER) <==> s.flags.chgDone && !s.flags.rechargePending)
  }

  ghost predicate TimeoutAgrees(s: State) {
    Voter.Shaped(s.out) && (On(s.out, TIMEOUT_VOTER) <==> s.flags.timeOut)
  }

  ghost predicate BatteryAgrees(s: State) {
    Voter.Shaped(s.out) && (On(s.out, UOVP_VOTER) <==> s.flags.battOvp)
  }

  // Each voter stands exactly for its condition.
  ghost predicate Agrees(s: State) {
    UserAgrees(s) && TimeoutAgrees(s) && BatteryAgrees(s)
  }

  // The output is disabled exactly when charging is done and no recharge is pending, or
  // charging has timed out, or the battery voltage is too high, or somebody else says so.
  ghost predicate Law(s: State, others: set<Name>)
    requires Voter.Shaped(s.out)
  {
    EffectiveResult(s.out) ==
    BoolToInt((s.flags.chgDone && !s.flags.rechargePending) || s.flags.timeOut || s.flags.battOvp
              || exists n :: n in others && On(s.out, n))
  }

  // What a usable votable reports.
  lemma OutputIsVotes(out: VotableState, others: set<Name>)
    requires Usable(out, others)
    ensures EffectiveResult(out) ==
            BoolToInt(On(out, USER_VOTER) || On(out, TIMEOUT_VOTER) || On(out, UOVP_VOTER)
                      || exists n :: n in others && On(out, n))
  {
    var m := Ballot(out.table);
    assert forall n :: n in m ==> (Counted(VoteSetAny, m[n]) <==> m[n].enabled);
    if n :| n in m && m[n].enabled && n !in others {
      assert n in OWN;
    }
    if n :| n in others + OWN && On(out, n) {
      assert Counted(VoteSetAny, m[n]);
    }
    assert {USER_VOTER, TIMEOUT_VOTER, UOVP_VOTER} == OWN;
  }

  lemma AgreementIsLaw(s: State, others: set<Name>)
    requires Usable(s.out, others) && Agrees(s)
    ensures Law(s, others)
  {
    OutputIsVotes(s.out, others);
  }

  // ------------------------------------------------------------------ one vote

  // The votable has a slot for a client that is expected.
  lemma HasRoom(out: VotableState, others: set<Name>, name: Name)
    requires Usable(out, others) && name in others + OWN
    ensures name in Ballot(out.table) || |Ballot(out.table)| < NUM_MAX_CLIENTS
  {
    var m := Ballot(out.table);
    assert |OWN| == 3;
    assert |others + OWN| == |others| + 3;
    if name !in m {
      FewerKeys(m.Keys, others + OWN, name);
      assert |m| == |m.Keys|;
    }
  }

  // A vote by one of the expected clients is accepted.
  lemma VoteIsAccepted(out: VotableState, others: set<Name>, name: Name, on: bool, rc: int32)
    requires Usable(out, others) && name in others + OWN
    ensures var out' := OutVote(out, name, on, rc);
            && Wf(out') && out'.kind == out.kind
            && out'.forceActive == out.forceActive && out'.overrideResult == out.overrideResult
            && Ballot(out'.table) == Ballot(out.table)[name := ClientVote(on, if on then 1 else 0)]
  {
    HasRoom(out, others, name);
    StepRefines(out, Vote(name, on, BoolToInt(on), false, rc));
  }

  // It changes that client only.
  lemma VoteSwitchesOne(out: VotableState, others: set<Name>, name: Name, on: bool, rc: int32)
    requires Usable(out, others) && name in others + OWN
    ensures var out' := OutVote(out, name, on, rc);
            && Usable(out', others)
            && On(out', name) == on
            && forall n :: n != name ==> On(out', n) == On(out, n)
  {
    VoteIsAccepted(out, others, name, on, rc);
  }

  // ------------------------------------------------------------------ what is voted

  // What the supervisor's voters have voted last.
  datatype Held = Held(user: bool, timeout: bool, battery: bool)

  function HeldIn(out: VotableState): Held
    requires out.table.Valid()
  {
    Held(On(out, USER_VOTER), On(out, TIMEOUT_VOTER), On(out, UOVP_VOTER))
  }

  predicate AnyHeld(h: Held) {
    h.user || h.timeout || h.battery
  }

  ghost predicate OthersOn(out: VotableState, others: set<Name>)
    requires out.table.Valid()
  {
    exists n :: n in others && On(out, n)
  }

  ghost predicate SameOthers(a: VotableState, b: VotableState, others: set<Name>)
    requires a.table.Valid() && b.table.Valid()
  {
    forall n :: n in others ==> On(a, n) == On(b, n)
  }

  lemma SameOthersOn(a: VotableState, b: VotableState, others: set<Name>)
    requires a.table.Valid() && b.table.Valid() && SameOthers(a, b, others)
    ensures OthersOn(a, others) <==> OthersOn(b, others)
  {
    if n :| n in others && On(a, n) {
      assert On(b, n);
    }
    if n :| n in others && On(b, n) {
      assert On(a, n);
    }
  }

  // The supervisor's reasons to disable the output.
  predicate Wanted(f: Flags) {
    (f.chgDone && !f.rechargePending) || f.timeOut || f.battOvp
  }

  // The law holds under somebody else's vote, and otherwise when the supervisor holds a
  // vote exactly if it has a reason.
  lemma LawIs(s: State, others: set<Name>)
    requires Usable(s.out, others)
    ensures Law(s, others) <==> OthersOn(s.out, others) || (AnyHeld(HeldIn(s.out)) <==> Wanted(s.flags))
  {
    OutputIsVotes(s.out, others);
  }

  // The heartbeat counts towards the timeout.
  predicate CountsTime(t: Tick) {
    t.charging && (t.usbOnline || t.presentAtTimeout)
  }

  // It is at least the 6001st in a row that does.
  predicate TimeoutNoticed(f: Flags, t: Tick) {
    !f.chgDone && CountsTime(t) && f.timeoutCount >= 6000
  }

  predicate TimeoutVoted(f: Flags, t: Tick) {
    TimeoutNoticed(f, t) && !t.usbOnline
  }

  // The timeout is noticed for the first time with a wired charger online: the flag is
  // set without a vote.
  predicate TimeoutMissed(f: Flags, t: Tick) {
    TimeoutNoticed(f, t) && t.usbOnline && !f.timeOut
  }

  // The battery is over voltage after its check.
  predicate OverVoltage(f: Flags, t: Tick) {
    if !t.usbOnline && !t.presentAtBattery then f.battOvp
    else t.vbatMv > 4500 || (f.battOvp && t.vbatMv >= 4450)
  }

  // The battery is found full, but by the time of the vote the charger is wired or gone.
  predicate FullMissed(cfg: Config, s: State, t: Tick)
    requires Supervisor.Shaped(cfg, s)
  {
    Fills(cfg, s, t) && (t.usbOnline || !t.onlineAtVote)
  }

  // A vote by one of the supervisor's own clients changes what that one holds.
  lemma OwnVote(out: VotableState, others: set<Name>, name: Name, on: bool, rc: int32)
    requires Usable(out, others) && name in OWN
    ensures var r := OutVote(out, name, on, rc); var h := HeldIn(out);
            && Usable(r, others) && SameOthers(out, r, others)
            && HeldIn(r) == Held(if name == USER_VOTER then on else h.user,
                                 if name == TIMEOUT_VOTER then on else h.timeout,
                                 if name == UOVP_VOTER then on else h.battery)
  {
    VoteSwitchesOne(out, others, name, on, rc);
  }

  // A vote by another client changes only whether that one's is on.
  lemma OtherVoteHolds(out: VotableState, others: set<Name>, name: Name, on: bool, rc: int32)
    requires Usable(out, others) && name in others
    ensures var r := OutVote(out, name, on, rc);
            && Usable(r, others) && HeldIn(r) == HeldIn(out)
            && On(r, name) == on && SameOthers(out, r, others - {name})
  {
    VoteSwitchesOne(out, others, name, on, rc);
  }

  lemma TimeoutVotes(s: State, t: Tick, others: set<Name>)
    requires Usable(s.out, others)
    ensures var r := CheckTimeout(s, t); var h := HeldIn(s.out);
            && Usable(r.out, others) && SameOthers(s.out, r.out, others)
            && HeldIn(r.out) == h.(timeout := h.timeout || TimeoutVoted(s.flags, t))
  {
    OwnVote(s.out, others, TIMEOUT_VOTER, true, t.cbRc);
  }

  lemma BatteryVotes(s: State, t: Tick, others: set<Name>)
    requires Usable(s.out, others)
    ensures var r := CheckBattery(s, t); var h := HeldIn(s.out); var over := OverVoltage(s.flags, t);
            && Usable(r.out, others) && SameOthers(s.out, r.out, others)
            && HeldIn(r.out) == h.(battery := if over == s.flags.battOvp then h.battery else over)
  {
    OwnVote(s.out, others, UOVP_VOTER, true, t.cbRc);
    OwnVote(s.out, others, UOVP_VOTER, false, t.cbRc);
  }

  lemma TermVotes(cfg: Config, s: State, t: Tick, others: set<Name>)
    requires Supervisor.Shaped(cfg, s) && Usable(s.out, others)
    ensures var r := CheckTerm(cfg, s, t); var h := HeldIn(s.out);
            && Usable(r.out, others) && SameOthers(s.out, r.out, others)
            && HeldIn(r.out) == h.(user := h.user || (Fills(cfg, s, t) && !FullMissed(cfg, s, t)))
  {
    OwnVote(s.out, others, USER_VOTER, true, t.cbRc);
  }

  lemma RechargeVotes(cfg: Config, s: State, t: Tick, others: set<Name>)
    requires Supervisor.Shaped(cfg, s) && Usable(s.out, others)
    ensures var r := CheckRecharge(cfg, s, t); var h := HeldIn(s.out);
            && Usable(r.out, others) && SameOthers(s.out, r.out, others)
            && HeldIn(r.out) == h.(user := h.user && !Recharges(cfg, s, t))
  {
    OwnVote(s.out, others, USER_VOTER, false, t.cbRc);
  }

  lemma BeforeTermVotes(cfg: Config, s: State, t: Tick, others: set<Name>)
    requires Supervisor.Shaped(cfg, s) && Usable(s.out, others)
    ensures var b := BeforeTerm(cfg, s, t); var h := HeldIn(s.out); var over := OverVoltage(s.flags, t);
            && Usable(b.out, others) && SameOthers(s.out, b.out, others)
            && HeldIn(b.out) == Held(h.user, h.timeout || TimeoutVoted(s.flags, t),
                                     if over == s.flags.battOvp then h.battery else over)
  {
    TimeoutVotes(s, t, others);
    BatteryVotes(CheckCharger(cfg, CheckTimeout(s, t), t), t, others);
  }

  // The check for a recharge finds one: after the other checks charging is done and none is
  // pending, and in one of the regions 1 to 7 the voltage is down to the recharge limit.
  predicate RechargesOn(cfg: Config, s: State, t: Tick)
    requires Supervisor.Shaped(cfg, s)
  {
    var m := CheckTerm(cfg, BeforeTerm(cfg, s, t), t);
    var region := Hysteresis.RegionOf(m.temp.batt.dyn, t.temp);
    && m.flags.chgDone && !m.flags.rechargePending && !m.charger.chgOvp
    && 1 <= region <= 7 && t.vbatMv <= cfg.wlsVbatdetMv[region] - t.decCv
  }

  // The votes after all checks, told by what the checks find.
  function HeldAfterChecks(cfg: Config, s: State, t: Tick, h: Held): Held
    requires Supervisor.Shaped(cfg, s)
  {
    var b := BeforeTerm(cfg, s, t);
    var over := OverVoltage(s.flags, t);
    Held(
      (h.user || (Fills(cfg, b, t) && !FullMissed(cfg, b, t))) && !RechargesOn(cfg, s, t),
      h.timeout || TimeoutVoted(s.flags, t),
      if over == s.flags.battOvp then h.battery else over)
  }

  lemma ChecksVote(cfg: Config, s: State, t: Tick, others: set<Name>)
    requires Supervisor.Shaped(cfg, s) && Usable(s.out, others)
    ensures var r := Checks(cfg, s, t);
            && Usable(r.out, others) && SameOthers(s.out, r.out, others)
            && HeldIn(r.out) == HeldAfterChecks(cfg, s, t, HeldIn(s.out))
  {
    var b := BeforeTerm(cfg, s, t);
    BeforeTermVotes(cfg, s, t, others);
    TermVotes(cfg, b, t, others);
    RechargeVotes(cfg, CheckTerm(cfg, b, t), t, others);
  }

  lemma BeforeTermSetsFlags(cfg: Config, s: State, t: Tick)
    requires Supervisor.Shaped(cfg, s)
    ensures var f := BeforeTerm(cfg, s, t).flags;
            && f.timeOut == (s.flags.timeOut || TimeoutNoticed(s.flags, t))
            && f.timeoutCount == (if s.flags.chgDone then s.flags.timeoutCount
                                  else if CountsTime(t) then s.flags.timeoutCount + 1 else 0)
            && f.battOvp == OverVoltage(s.flags, t)
            && f.chgDone == s.flags.chgDone && f.rechargePending == s.flags.rechargePending
            && f.rechargeStatus == s.flags.rechargeStatus
  {
    var c := CheckCharger(cfg, CheckTimeout(s, t), t);
    assert c.flags.battOvp == s.flags.battOvp;
    assert CheckBattery(c, t).flags == c.flags.(battOvp := OverVoltage(s.flags, t));
  }

  lemma AfterTermSetsFlags(cfg: Config, b: State, t: Tick)
    requires Supervisor.Shaped(cfg, b)
    ensures var m := CheckTerm(cfg, b, t); var f := CheckRecharge(cfg, m, t).flags;
            && f.timeOut == b.flags.timeOut && f.battOvp == b.flags.battOvp && f.timeoutCount == b.flags.timeoutCount
            && f.rechargeStatus == (b.flags.rechargeStatus || Recharges(cfg, m, t))
            && f.chgDone == m.flags.chgDone == (b.flags.chgDone || Fills(cfg, b, t))
            && m.flags.rechargePending == (b.flags.rechargePending && !Fills(cfg, b, t))
            && f.rechargePending == (Recharges(cfg, m, t) || m.flags.rechargePending)
            && (Fills(cfg, b, t) ==> !(b.flags.chgDone && !b.flags.rechargePending))
            && (Recharges(cfg, m, t) ==> m.flags.chgDone && !m.flags.rechargePending)
  {
  }

  lemma ChecksSetFlags(cfg: Config, s: State, t: Tick)
    requires Supervisor.Shaped(cfg, s)
    ensures var b := BeforeTerm(cfg, s, t); var f := Checks(cfg, s, t).flags;
            && f.timeOut == (s.flags.timeOut || TimeoutNoticed(s.flags, t))
            && f.timeoutCount == (if s.flags.chgDone then s.flags.timeoutCount
                                  else if CountsTime(t) then s.flags.timeoutCount + 1 else 0)
            && f.battOvp == OverVoltage(s.flags, t)
            && f.rechargeStatus == (s.flags.rechargeStatus || RechargesOn(cfg, s, t))
            && f.chgDone == (s.flags.chgDone || Fills(cfg, b, t))
            && f.rechargePending ==
               (RechargesOn(cfg, s, t) || (s.flags.rechargePending && !Fills(cfg, b, t)))
            && (Fills(cfg, b, t) ==> !(s.flags.chgDone && !s.flags.rechargePending))
            && (RechargesOn(cfg, s, t) ==> f.chgDone)
            && (RechargesOn(cfg, s, t) && !Fills(cfg, b, t) ==> s.flags.chgDone && !s.flags.rechargePending)
  {
    BeforeTermSetsFlags(cfg, s, t);
    AfterTermSetsFlags(cfg, BeforeTerm(cfg, s, t), t);
  }

  // ------------------------------------------------------------------ the checks

  lemma TimeoutStep(s: State, t: Tick, others: set<Name>)
    requires Usable(s.out, others)
    ensures var r := CheckTimeout(s, t);
            && Usable(r.out, others)
            && r.flags == s.flags.(timeOut := r.flags.timeOut, timeoutCount := r.flags.timeoutCount)
            && On(r.out, USER_VOTER) == On(s.out, USER_VOTER)
            && (UserAgrees(r) <==> UserAgrees(s)) && (BatteryAgrees(r) <==> BatteryAgrees(s))
            && (TimeoutAgrees(s) ==> (TimeoutAgrees(r) <==> !TimeoutMissed(s.flags, t)))
  {
    TimeoutVotes(s, t, others);
  }

  lemma BatteryStep(s: State, t: Tick, others: set<Name>)
    requires Usable(s.out, others) && BatteryAgrees(s)
    ensures var r := CheckBattery(s, t);
            && Usable(r.out, others)
            && r.flags == s.flags.(battOvp := r.flags.battOvp)
            && On(r.out, USER_VOTER) == On(s.out, USER_VOTER)
            && BatteryAgrees(r)
            && (UserAgrees(r) <==> UserAgrees(s)) && (TimeoutAgrees(r) <==> TimeoutAgrees(s))
  {
    BatteryVotes(s, t, others);
  }

  lemma TermStep(cfg: Config, s: State, t: Tick, others: set<Name>)
    requires Supervisor.Shaped(cfg, s) && Usable(s.out, others) && UserAgrees(s)
    ensures var r := CheckTerm(cfg, s, t);
            && Usable(r.out, others)
            && r.flags == s.flags.(chgDone := r.flags.chgDone, rechargePending := r.flags.rechargePending)
            && (UserAgrees(r) <==> !FullMissed(cfg, s, t))
            && (TimeoutAgrees(r) <==> TimeoutAgrees(s)) && (BatteryAgrees(r) <==> BatteryAgrees(s))
            && ((s.flags.rechargePending ==> s.flags.chgDone) ==> (r.flags.rechargePending ==> r.flags.chgDone))
  {
    TermVotes(cfg, s, t, others);
  }

  // ------------------------------------------------------------------ one heartbeat

  // A heartbeat on which one of the two votes above is missed (and a missed vote for a
  // full battery is not made up for by a recharge on the same heartbeat).
  predicate Misses(cfg: Config, s: State, t: Tick)
    requires Supervisor.Shaped(cfg, s)
  {
    t.present && !t.fastStarted &&
    (TimeoutMissed(s.flags, t) || (FullMissed(cfg, BeforeTerm(cfg, s, t), t) && !RechargesOn(cfg, s, t)))
  }

  ghost predicate Good(s: State, others: set<Name>) {
    Usable(s.out, others) && Agrees(s) && (s.flags.rechargePending ==> s.flags.chgDone)
  }

  // Somebody else disables the output, or the battery check or a timeout does.
  ghost predicate Masked(s: State, t: Tick, others: set<Name>)
    requires Voter.Shaped(s.out)
  {
    OthersOn(s.out, others) || OverVoltage(s.flags, t) || s.flags.timeOut || TimeoutVoted(s.flags, t)
  }

  lemma HeldAfterMiss(cfg: Config, s: State, t: Tick, others: set<Name>)
    requires Supervisor.Shaped(cfg, s) && Good(s, others) && t.present && !t.fastStarted
    ensures var h := HeldAfterChecks(cfg, s, t, HeldIn(s.out)); var f := Checks(cfg, s, t).flags;
            && (f.rechargePending ==> f.chgDone)
            && h.battery == f.battOvp
            && (h.timeout == f.timeOut <==> !TimeoutMissed(s.flags, t))
            && (h.user == (f.chgDone && !f.rechargePending) <==>
                !(FullMissed(cfg, BeforeTerm(cfg, s, t), t) && !RechargesOn(cfg, s, t)))
            && (TimeoutMissed(s.flags, t) ==> !h.user)
  {
    ChecksSetFlags(cfg, s, t);
  }

  // A heartbeat keeps voters and conditions together exactly when it misses no vote.
  lemma HeartbeatKeepsGood(cfg: Config, s: State, t: Tick, others: set<Name>)
    requires Supervisor.Shaped(cfg, s) && Good(s, others)
    ensures Good(Heartbeat(cfg, s, t), others) <==> !Misses(cfg, s, t)
  {
    if t.present && !t.fastStarted {
      ChecksVote(cfg, s, t, others);
      HeldAfterMiss(cfg, s, t, others);
    }
  }

  // It keeps the law exactly when it misses no vote or the output is disabled anyway.
  lemma HeartbeatKeepsLaw(cfg: Config, s: State, t: Tick, others: set<Name>)
    requires Supervisor.Shaped(cfg, s) && Good(s, others)
    ensures Law(Heartbeat(cfg, s, t), others) <==> !Misses(cfg, s, t) || Masked(s, t, others)
  {
    var r := Heartbeat(cfg, s, t);
    if t.present && !t.fastStarted {
      ChecksVote(cfg, s, t, others);
      HeldAfterMiss(cfg, s, t, others);
      ChecksSetFlags(cfg, s, t);
      SameOthersOn(s.out, r.out, others);
    }
    LawIs(r, others);
  }

  // A missed vote matters: if nothing else disables the output, it stays on although
  // charging is done.
  lemma MissedFullLeavesOutputOn(cfg: Config, s: State, t: Tick, others: set<Name>)
    requires Supervisor.Shaped(cfg, s) && Good(s, others) && t.present && !t.fastStarted
    requires FullMissed(cfg, BeforeTerm(cfg, s, t), t) && !RechargesOn(cfg, s, t)
    ensures var r := Checks(cfg, s, t);
            !r.flags.timeOut && !r.flags.battOvp && (forall n :: n in others ==> !On(r.out, n)) ==>
              r.flags.chgDone && !r.flags.rechargePending && EffectiveResult(r.out) == 0
  {
    var r := Checks(cfg, s, t);
    ChecksVote(cfg, s, t, others);
    HeldAfterMiss(cfg, s, t, others);
    ChecksSetFlags(cfg, s, t);
    OutputIsVotes(r.out, others);
  }

  // ------------------------------------------------------------------ such heartbeats exist

  // A full battery, on a heartbeat that does nothing else.
  predicate FullBeat(cfg: Config, t: Tick)
    requires cfg.Shaped()
  {
    var region := Hysteresis.RegionOf(cfg.battTempThr, t.temp);
    && t.present && (t.usbOnline || t.onlineAtFull) && !t.fastStarted && !t.charging
    && t.ffcIdle && !t.battGood && t.vchg.wlsType.TRX?
    && cfg.checkBattFullBySw && BATT_TEMP_COLD <= region <= BATT_TEMP_WARM
    && cfg.vbatmaxMv[region] + 18 - t.decCv <= t.vbatMv <= BATT_SOFT_OVP_MV
    && cfg.wlsVbatdetMv[region] - t.decCv < t.vbatMv
    && t.ibatMa < 0 && Abs(t.ibatMa) > cfg.littleColdItermMa && Abs(t.ibatMa) > cfg.swItermMa
  }

  // The third such heartbeat in a row finds the battery full.
  lemma FullBeatCounts(cfg: Config, s: State, t: Tick)
    requires Supervisor.Shaped(cfg, s) && FullBeat(cfg, t)
    requires s.temp == TempMonitorObject.Initial(cfg) && s.flags == CLEARED && !s.charger.chgOvp
    requires s.full == BatteryFull.State(false, false, 0, s.full.countsHw) && 0 <= s.full.countsHw < 3
    ensures var r := Heartbeat(cfg, s, t); var third := s.full.countsHw == 2;
            && r.temp == s.temp && r.charger == s.charger
            && r.flags == CLEARED.(chgDone := third)
            && r.full == BatteryFull.State(false, false, 0, if third then 0 else s.full.countsHw + 1)
            && r.out == if third && !t.usbOnline && t.onlineAtVote then OutVote(s.out, USER_VOTER, true, t.cbRc) else s.out
    ensures BeforeTerm(cfg, s, t) == s && (s.full.countsHw == 2 <==> Fills(cfg, s, t))
  {
    assert CheckTimeout(s, t) == s;
    assert BeforeTerm(cfg, s, t) == s;
  }

  // With a wired charger online it does not vote.
  lemma ThreeFullBeats(cfg: Config, t: Tick, over: int, notOver: int, hasCallback: bool)
    requires cfg.Shaped() && FullBeat(cfg, t) && t.usbOnline
    ensures var s := Fresh(cfg, BatteryFull.INITIAL, over, notOver, hasCallback);
            var s2 := Heartbeat(cfg, Heartbeat(cfg, s, t), t);
            var s3 := Heartbeat(cfg, s2, t);
            && FullMissed(cfg, BeforeTerm(cfg, s2, t), t)
            && s3.flags.chgDone && !s3.flags.rechargePending && EffectiveResult(s3.out) == 0
  {
    var s := Fresh(cfg, BatteryFull.INITIAL, over, notOver, hasCallback);
    FullBeatCounts(cfg, s, t);
    FullBeatCounts(cfg, Heartbeat(cfg, s, t), t);
    FullBeatCounts(cfg, Heartbeat(cfg, Heartbeat(cfg, s, t), t), t);
  }

  // A heartbeat that counts towards the timeout, and does nothing else.
  predicate LongBeat(t: Tick) {
    && t.present && (t.usbOnline || t.presentAtTimeout) && t.charging && !t.fastStarted
    && !t.ffcIdle && !t.battGood && t.vchg.wlsType.TRX? && t.vbatMv <= BATT_SOFT_OVP_MV
  }

  lemma LongBeatCounts(cfg: Config, s: State, t: Tick)
    requires Supervisor.Shaped(cfg, s) && LongBeat(t)
    requires 0 <= s.flags.timeoutCount <= 6000 && !s.charger.chgOvp
    requires s.flags == CLEARED.(timeoutCount := s.flags.timeoutCount)
    ensures var n := s.flags.timeoutCount;
            Heartbeat(cfg, s, t) ==
            if n < 6000 then s.(flags := s.flags.(timeoutCount := n + 1))
            else s.(flags := s.flags.(timeoutCount := n + 1, timeOut := true),
                    out := if t.usbOnline then s.out else OutVote(s.out, TIMEOUT_VOTER, true, t.cbRc))
    ensures TimesOut(s.flags, t) <==> s.flags.timeoutCount == 6000
  {
    var s1 := CheckTimeout(s, t);
    assert BeforeTerm(cfg, s, t) == s1;
    assert CheckTerm(cfg, s1, t) == s1;
  }

  // With no wired charger, and wireless charging still online at the vote if it was
  // online at the check before, no vote is missed.
  lemma WirelessOnlyMissesNothing(cfg: Config, s: State, t: Tick)
    requires Supervisor.Shaped(cfg, s)
    requires !t.usbOnline && (t.onlineAtFull ==> t.onlineAtVote)
    ensures !Misses(cfg, s, t)
  {
  }

  // ------------------------------------------------------------------ whole runs

  datatype Op =
    | Beat(t: Tick)
    | OtherVote(name: Name, on: bool, rc: int32)
    | DriverReset(rc: int32)

  function ApplyOp(cfg: Config, s: State, op: Op): (r: State)
    requires Supervisor.Shaped(cfg, s)
    ensures Supervisor.Shaped(cfg, r)
  {
    match op
    case Beat(t) => Heartbeat(cfg, s, t)
    case OtherVote(name, on, rc) => s.(out := OutVote(s.out, name, on, rc))
    case DriverReset(rc) => Reset(cfg, s, rc)
  }

  predicate Harmless(cfg: Config, s: State, op: Op)
    requires Supervisor.Shaped(cfg, s)
  {
    match op
    case Beat(t) => !Misses(cfg, s, t)
    case OtherVote(_, _, _) => true
    case DriverReset(_) => !s.flags.timeOut
  }

  lemma ResetVotes(out: VotableState, rc: int32, others: set<Name>)
    requires Usable(out, others) && {FFC_VOTER, STOP_VOTER} <= others
    ensures var r := Withdrawn(out, rc);
            && Usable(r, others)
            && HeldIn(r) == Held(false, On(out, TIMEOUT_VOTER), false)
            && SameOthers(out, r, others - {FFC_VOTER, STOP_VOTER})
            && !On(r, FFC_VOTER) && !On(r, STOP_VOTER)
  {
    var o1 := OutVote(out, FFC_VOTER, false, rc);
    var o2 := OutVote(o1, USER_VOTER, false, rc);
    var o3 := OutVote(o2, STOP_VOTER, false, rc);
    OtherVoteHolds(out, others, FFC_VOTER, false, rc);
    OwnVote(o1, others, USER_VOTER, false, rc);
    OtherVoteHolds(o2, others, STOP_VOTER, false, rc);
    OwnVote(o3, others, UOVP_VOTER, false, rc);
    assert FFC_VOTER in others - {STOP_VOTER};
  }

  lemma OthersAfterReset(out: VotableState, rc: int32, others: set<Name>)
    requires Usable(out, others) && {FFC_VOTER, STOP_VOTER} <= others
    ensures OthersOn(Withdrawn(out, rc), others) <==> OthersOn(out, others - {FFC_VOTER, STOP_VOTER})
  {
    var r, kept := Withdrawn(out, rc), others - {FFC_VOTER, STOP_VOTER};
    ResetVotes(out, rc, others);
    SameOthersOn(out, r, kept);
    if n :| n in others && On(r, n) {
      assert n in kept;
    }
  }

  // A reset of the wireless driver withdraws every vote of the supervisor but that of
  // the timeout: after a timeout the output stays off although the flag is clear.
  lemma ResetKeepsGood(cfg: Config, s: State, rc: int32, others: set<Name>)
    requires Supervisor.Shaped(cfg, s) && Good(s, others) && {FFC_VOTER, STOP_VOTER} <= others
    ensures Good(Reset(cfg, s, rc), others) <==> !s.flags.timeOut
    ensures s.flags.timeOut ==> EffectiveResult(Reset(cfg, s, rc).out) == 1
  {
    ResetVotes(s.out, rc, others);
    OutputIsVotes(Withdrawn(s.out, rc), others);
  }

  // The law survives the reset exactly when there was no timeout, or the vote of another
  // client, which the reset does not withdraw, disables the output.
  lemma ResetKeepsLaw(cfg: Config, s: State, rc: int32, others: set<Name>)
    requires Supervisor.Shaped(cfg, s) && Good(s, others) && {FFC_VOTER, STOP_VOTER} <= others
    ensures Law(Reset(cfg, s, rc), others) <==>
            !s.flags.timeOut || OthersOn(s.out, others - {FFC_VOTER, STOP_VOTER})
  {
    ResetVotes(s.out, rc, others);
    OthersAfterReset(s.out, rc, others);
    LawIs(Reset(cfg, s, rc), others);
  }

  // The names that vote beside the supervisor are among `others`.
  predicate Expected(op: Op, others: set<Name>) {
    (op.OtherVote? ==> op.name in others) && (op.DriverReset? ==> {FFC_VOTER, STOP_VOTER} <= others)
  }

  lemma StepKeepsGood(cfg: Config, s: State, op: Op, others: set<Name>)
    requires Supervisor.Shaped(cfg, s) && Good(s, others) && Expected(op, others)
    ensures Good(ApplyOp(cfg, s, op), others) <==> Harmless(cfg, s, op)
  {
    match op
    case Beat(t) => HeartbeatKeepsGood(cfg, s, t, others);
    case OtherVote(name, on, rc) => VoteSwitchesOne(s.out, others, name, on, rc);
    case DriverReset(rc) => ResetKeepsGood(cfg, s, rc, others);
  }

  function Run(cfg: Config, s: State, ops: seq<Op>): (r: State)
    requires Supervisor.Shaped(cfg, s)
    ensures Supervisor.Shaped(cfg, r)
  {
    if |ops| == 0 then s else ApplyOp(cfg, Run(cfg, s, ops[..|ops| - 1]), ops[|ops| - 1])
  }

  predicate AllHarmless(cfg: Config, s: State, ops: seq<Op>)
    requires Supervisor.Shaped(cfg, s)
  {
    |ops| == 0 ||
    var k := |ops| - 1;
    AllHarmless(cfg, s, ops[..k]) && Harmless(cfg, Run(cfg, s, ops[..k]), ops[k])
  }

  // A fresh supervisor on a fresh votable; the statics of the checks are arbitrary.
  function Fresh(cfg: Config, full: BatteryFull.State, over: int, notOver: int, hasCallback: bool): State {
    State(TempMonitorObject.Initial(cfg), full, ChargerOvp.Initial(over, notOver), CLEARED, Created(VoteSetAny, hasCallback))
  }

  lemma FreshIsGood(cfg: Config, full: BatteryFull.State, over: int, notOver: int, hasCallback: bool, others: set<Name>)
    requires cfg.Shaped() && OWN !! others && |others| + 3 <= NUM_MAX_CLIENTS
    ensures Good(Fresh(cfg, full, over, notOver, hasCallback), others)
  {
    HistoryRefines(VoteSetAny, hasCallback, []);
  }

  // Over every run of heartbeats, votes of other clients and driver resets that misses no
  // vote and does not reset after a timeout, the output is disabled exactly when it
  // should be, and a pending recharge implies that charging was done.
  lemma {:induction false} RunObeysLaw(cfg: Config, s: State, ops: seq<Op>, others: set<Name>)
    requires Supervisor.Shaped(cfg, s) && Good(s, others)
    requires forall op :: op in ops ==> Expected(op, others)
    requires AllHarmless(cfg, s, ops)
    ensures var r := Run(cfg, s, ops);
            && Good(r, others)
            && Law(r, others)
            && (r.flags.rechargePending ==> r.flags.chgDone)
  {
    if |ops| > 0 {
      var k := |ops| - 1;
      assert forall op :: op in ops[..k] ==> op in ops;
      assert ops[k] in ops;
      RunObeysLaw(cfg, s, ops[..k], others);
      StepKeepsGood(cfg, Run(cfg, s, ops[..k]), ops[k], others);
    }
    AgreementIsLaw(Run(cfg, s, ops), others);
  }

  lemma {:induction false} WirelessRunIsHarmless(cfg: Config, s: State, ops: seq<Op>)
    requires Supervisor.Shaped(cfg, s)
    requires forall op :: op in ops ==> op.Beat? && !op.t.usbOnline && (op.t.onlineAtFull ==> op.t.onlineAtVote)
    ensures AllHarmless(cfg, s, ops)
  {
    if |ops| > 0 {
      var k := |ops| - 1;
      assert forall op :: op in ops[..k] ==> op in ops;
      assert ops[k] in ops;
      WirelessRunIsHarmless(cfg, s, ops[..k]);
      WirelessOnlyMissesNothing(cfg, Run(cfg, s, ops[..k]), ops[k].t);
    }
  }

  // Wireless charging alone, from a fresh start, with nobody else voting.
  lemma WirelessChargingObeysLaw(
    cfg: Config, full: BatteryFull.State, over: int, notOver: int, hasCallback: bool, ops: seq<Op>)
    requires cfg.Shaped()
    requires forall op :: op in ops ==> op.Beat? && !op.t.usbOnline && (op.t.onlineAtFull ==> op.t.onlineAtVote)
    ensures var r := Run(cfg, Fresh(cfg, full, over, notOver, hasCallback), ops);
            && EffectiveResult(r.out) ==
               BoolToInt((r.flags.chgDone && !r.flags.rechargePending) || r.flags.timeOut || r.flags.battOvp)
            && (r.flags.rechargePending ==> r.flags.chgDone)
  {
    var s := Fresh(cfg, full, over, notOver, hasCallback);
    FreshIsGood(cfg, full, over, notOver, hasCallback, {});
    WirelessRunIsHarmless(cfg, s, ops);
    RunObeysLaw(cfg, s, ops, {});
  }

  // ------------------------------------------------------------------ runs into a timeout

  predicate LongBeats(ops: seq<Op>) {
    forall op :: op in ops ==> op.Beat? && LongBeat(op.t)
  }

  lemma RunNext(cfg: Config, s: State, ops: seq<Op>, op: Op)
    requires Supervisor.Shaped(cfg, s)
    ensures Run(cfg, s, ops + [op]) == ApplyOp(cfg, Run(cfg, s, ops), op)
  {
    assert (ops + [op])[..|ops|] == ops;
  }

  // `r` is `s` after `n` of them.
  ghost predicate HasCounted(s: State, r: State, n: int) {
    r == s.(flags := CLEARED.(timeoutCount := n)) && !s.charger.chgOvp
  }

  lemma CountOneMore(cfg: Config, s: State, r: State, t: Tick, n: int)
    requires Supervisor.Shaped(cfg, r) && LongBeat(t) && 0 <= n < 6000 && HasCounted(s, r, n)
    ensures HasCounted(s, Heartbeat(cfg, r, t), n + 1)
  {
    LongBeatCounts(cfg, r, t);
  }

  lemma {:induction false} LongRun(cfg: Config, s: State, ops: seq<Op>)
    requires Supervisor.Shaped(cfg, s) && HasCounted(s, s, 0)
    requires |ops| <= 6000 && LongBeats(ops)
    ensures HasCounted(s, Run(cfg, s, ops), |ops|)
  {
    if |ops| > 0 {
      var k := |ops| - 1;
      assert forall op :: op in ops[..k] ==> op in ops;
      assert ops[k] in ops;
      LongRun(cfg, s, ops[..k]);
      CountOneMore(cfg, s, Run(cfg, s, ops[..k]), ops[k].t, k);
    }
  }

  // The state after 6000 such heartbeats, and after the one that times out.
  lemma OneBeatTooMany(cfg: Config, s: State, r: State, t: Tick, others: set<Name>)
    requires Supervisor.Shaped(cfg, r) && LongBeat(t) && HasCounted(s, r, 6000) && Good(r, others)
    ensures var r' := Heartbeat(cfg, r, t);
            && r'.flags.timeOut && TimesOut(r.flags, t)
            && (Good(r', others) <==> !t.usbOnline)
            && (!Law(r', others) <==> t.usbOnline && !OthersOn(r.out, others))
  {
    LongBeatCounts(cfg, r, t);
    HeartbeatKeepsGood(cfg, r, t, others);
    HeartbeatKeepsLaw(cfg, r, t, others);
    assert CheckTerm(cfg, BeforeTerm(cfg, r, t), t) == CheckTimeout(r, t);
  }

  // On the wire the timeout is noticed without a vote, and the output stays on.
  lemma WiredTimeoutLeavesOutputOn(
    cfg: Config, full: BatteryFull.State, over: int, notOver: int, hasCallback: bool, ops: seq<Op>, t: Tick)
    requires cfg.Shaped() && |ops| == 6000 && LongBeats(ops) && LongBeat(t) && t.usbOnline
    ensures var s := Fresh(cfg, full, over, notOver, hasCallback); var r := Run(cfg, s, ops + [Beat(t)]);
            TimeoutMissed(Run(cfg, s, ops).flags, t) && r.flags.timeOut && !Law(r, {})
  {
    var s := Fresh(cfg, full, over, notOver, hasCallback);
    FreshIsGood(cfg, full, over, notOver, hasCallback, {});
    LongRun(cfg, s, ops);
    OneBeatTooMany(cfg, s, Run(cfg, s, ops), t, {});
    RunNext(cfg, s, ops, Beat(t));
  }

  // On the pad the timeout is voted, and a driver reset after it leaves the output
  // disabled for no reason.
  lemma ResetAfterTimeoutLeavesOutputOff(
    cfg: Config, full: BatteryFull.State, over: int, notOver: int, hasCallback: bool, ops: seq<Op>, t: Tick, rc: int32)
    requires cfg.Shaped() && |ops| == 6000 && LongBeats(ops) && LongBeat(t) && !t.usbOnline
    ensures var s := Fresh(cfg, full, over, notOver, hasCallback);
            var r := Run(cfg, s, ops + [Beat(t)] + [DriverReset(rc)]);
            r.flags == CLEARED && EffectiveResult(r.out) == 1
  {
    var s := Fresh(cfg, full, over, notOver, hasCallback);
    var others := {FFC_VOTER, STOP_VOTER};
    FreshIsGood(cfg, full, over, notOver, hasCallback, others);
    LongRun(cfg, s, ops);
    OneBeatTooMany(cfg, s, Run(cfg, s, ops), t, others);
    TwoMore(cfg, s, ops, t, rc);
    ResetKeepsGood(cfg, Heartbeat(cfg, Run(cfg, s, ops), t), rc, others);
  }

  lemma TwoMore(cfg: Config, s: State, ops: seq<Op>, t: Tick, rc: int32)
    requires Supervisor.Shaped(cfg, s)
    ensures Run(cfg, s, ops + [Beat(t)] + [DriverReset(rc)]) == Reset(cfg, Heartbeat(cfg, Run(cfg, s, ops), t), rc)
  {
    RunNext(cfg, s, ops, Beat(t));
    RunNext(cfg, s, ops + [Beat(t)], DriverReset(rc));
  }
}
