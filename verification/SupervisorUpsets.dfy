// Runs from a fresh start in which the supervisor and the flash-full-charge machine take
// each other's vote back: all operations but the last are harmonious, and the last one
// breaks the law.
module SupervisorUpsets {
  import opened Common
  import opened CommConfig
  import BatteryFull
  import Hysteresis
  import TempMonitorObject
  import Ffc
  import opened Voter
  import opened Supervisor
  import opened SupervisorLaw
  import opened SupervisorFfc

  ghost predicate Upset(cfg: Config, s: Joint, ops: seq<JointOp>, others: set<Name>)
    requires Possible(cfg, s)
  {
    && |ops| > 0 && History(cfg, s, ops, others)
    && AllHarmonious(cfg, s, ops[..|ops| - 1], others)
    && !JointLaw(RunJoint(cfg, s, ops, others), others)
  }

  // `e` is where a harmonious run leads in which nobody else votes.
  ghost predicate Leads(cfg: Config, s: Joint, ops: seq<JointOp>, e: Joint, others: set<Name>)
    requires Possible(cfg, s)
  {
    && History(cfg, s, ops, others) && AllHarmonious(cfg, s, ops, others) && RunJoint(cfg, s, ops, others) == e
    && forall op :: op in ops ==> op.Heart? || op.Charge?
  }

  lemma OneMoreOp(cfg: Config, s: Joint, ops: seq<JointOp>, op: JointOp, e: Joint, others: set<Name>)
    requires Possible(cfg, s) && Leads(cfg, s, ops, e, others) && Allowed(cfg, e, op, others)
    ensures History(cfg, s, ops + [op], others) && RunJoint(cfg, s, ops + [op], others) == Step(cfg, e, op)
    ensures Harmonious(cfg, e, op) && (op.Heart? || op.Charge?) ==> Leads(cfg, s, ops + [op], Step(cfg, e, op), others)
  {
    assert (ops + [op])[..|ops|] == ops;
  }

  lemma OneMoreCall(cfg: Config, s: Joint, ops: seq<JointOp>, call: Ffc.Op, e: Joint, others: set<Name>)
    requires Possible(cfg, s) && Leads(cfg, s, ops, e, others) && CanCall(cfg, e, call) && Hands(e, call)
    ensures var r := Step(cfg, e, Charge(call, 0));
            && Leads(cfg, s, ops + [Charge(call, 0)], r, others)
            && SameSupervisor(e, r) && r.ffc == Ffc.Apply(cfg, e.ffc, call).state
  {
    OneMoreOp(cfg, s, ops, Charge(call, 0), e, others);
  }

  // `r` differs from `e` in its votes and in the machine only.
  predicate SameSupervisor(e: Joint, r: Joint) {
    r.sup == e.sup.(out := r.sup.out)
  }

  lemma StepIsQuiet(cfg: Config, s: Joint, op: JointOp, others: set<Name>)
    requires Possible(cfg, s) && Usable(s.sup.out, others) && Allowed(cfg, s, op, others) && (op.Heart? || op.Charge?)
    ensures OthersOn(Step(cfg, s, op).sup.out, others) <==> OthersOn(s.sup.out, others)
  {
    match op
    case Heart(t) =>
      var c := Checked(cfg, s, Seen(s, t));
      HeartbeatIsChecked(cfg, s, t);
      ChecksVote(cfg, s.sup, Seen(s, t), others);
      SameOthersOn(s.sup.out, c.sup.out, others);
    case Charge(call, rc) =>
      CallVotes(cfg, s, call, rc, others);
      SameOthersOn(s.sup.out, Step(cfg, s, op).sup.out, others);
  }

  // Nobody else's vote is on after such a run.
  lemma {:induction false} RunIsQuiet(cfg: Config, s: Joint, ops: seq<JointOp>, others: set<Name>)
    requires Possible(cfg, s) && JointGood(s, others) && History(cfg, s, ops, others) && !OthersOn(s.sup.out, others)
    requires forall op :: op in ops ==> op.Heart? || op.Charge?
    ensures !OthersOn(RunJoint(cfg, s, ops, others).sup.out, others)
  {
    if |ops| > 0 {
      var k := |ops| - 1;
      assert forall op :: op in ops[..k] ==> op in ops;
      assert ops[k] in ops;
      RunIsQuiet(cfg, s, ops[..k], others);
      LawAfterAnyRun(cfg, s, ops[..k], others);
      StepIsQuiet(cfg, RunJoint(cfg, s, ops[..k], others), ops[k], others);
    }
  }

  // An operation that is not lawful when nobody else votes breaks the law.
  lemma UpsetBy(cfg: Config, s: Joint, ops: seq<JointOp>, op: JointOp, e: Joint, others: set<Name>)
    requires Possible(cfg, s) && JointGood(s, others) && !OthersOn(s.sup.out, others)
    requires Leads(cfg, s, ops, e, others) && Allowed(cfg, e, op, others)
    requires !OthersOn(e.sup.out, others) ==> !Lawful(cfg, e, op, others)
    ensures Upset(cfg, s, ops + [op], others)
  {
    RunIsQuiet(cfg, s, ops, others);
    JointRunObeysLaw(cfg, s, ops, others);
    OneMoreOp(cfg, s, ops, op, e, others);
    StepKeepsLaw(cfg, e, op, others);
    assert (ops + [op])[..|ops|] == ops;
  }

  // ------------------------------------------------------------------ into the idle phase

  // A switch, and four ticks with a low current.
  function LowCalls(r: Ffc.Reading): seq<JointOp> {
    var low := Charge(Ffc.Tick(r), 0);
    [Charge(Ffc.SwitchTo(r), 0), low, low, low, low]
  }

  function ThreeTicks(r: Ffc.Reading): seq<JointOp> {
    var idle := Charge(Ffc.Tick(r), 0);
    [idle, idle, idle]
  }

  lemma LowCallsAre(ops: seq<JointOp>, r: Ffc.Reading)
    ensures var low := Charge(Ffc.Tick(r), 0);
            ops + LowCalls(r) == ops + [Charge(Ffc.SwitchTo(r), 0)] + [low] + [low] + [low] + [low]
  {
  }

  // The machine in its first step, having counted `n` of them.
  predicate LowFor(s: Joint, n: nat, preRegion: nat) {
    s.ffc == Ffc.State(Ffc.FAST, 0, n, 0, true, preRegion)
  }

  lemma SwitchCounts(cfg: Config, s: Joint, ops: seq<JointOp>, e: Joint, r: Ffc.Reading, others: set<Name>) returns (e': Joint)
    requires Possible(cfg, s) && Leads(cfg, s, ops, e, others) && e.ffc.status.DEFAULT? && Ffc.LowCurrent(cfg, r)
    ensures Leads(cfg, s, ops + [Charge(Ffc.SwitchTo(r), 0)], e', others) && SameSupervisor(e, e')
    ensures LowFor(e', 0, e.ffc.preRegion)
  {
    OneMoreCall(cfg, s, ops, Ffc.SwitchTo(r), e, others);
    e' := Step(cfg, e, Charge(Ffc.SwitchTo(r), 0));
  }

  lemma LowTickCounts(
    cfg: Config, s: Joint, ops: seq<JointOp>, e: Joint, r: Ffc.Reading, n: nat, pre: nat, others: set<Name>) returns (e': Joint)
    requires Possible(cfg, s) && Leads(cfg, s, ops, e, others) && LowFor(e, n, pre) && Ffc.LowCurrent(cfg, r) && n <= 3
    ensures Leads(cfg, s, ops + [Charge(Ffc.Tick(r), 0)], e', others) && SameSupervisor(e, e')
    ensures n < 3 ==> LowFor(e', n + 1, r.region)
    ensures n == 3 && cfg.wlsFfcStepMax == 1 ==> e'.ffc.status.IDLE? && e'.ffc.fccCount == 0
  {
    Ffc.LowTick(cfg, e.ffc, r);
    OneMoreCall(cfg, s, ops, Ffc.Tick(r), e, others);
    e' := Step(cfg, e, Charge(Ffc.Tick(r), 0));
  }

  lemma TwoTicksCount(
    cfg: Config, s: Joint, ops: seq<JointOp>, e: Joint, r: Ffc.Reading, n: nat, pre: nat, others: set<Name>) returns (e': Joint)
    requires Possible(cfg, s) && Leads(cfg, s, ops, e, others) && LowFor(e, n, pre) && Ffc.LowCurrent(cfg, r) && n <= 2
    ensures Leads(cfg, s, ops + [Charge(Ffc.Tick(r), 0)] + [Charge(Ffc.Tick(r), 0)], e', others) && SameSupervisor(e, e')
    ensures n < 2 ==> LowFor(e', n + 2, r.region)
    ensures n == 2 && cfg.wlsFfcStepMax == 1 ==> e'.ffc.status.IDLE? && e'.ffc.fccCount == 0
  {
    var m := LowTickCounts(cfg, s, ops, e, r, n, pre, others);
    e' := LowTickCounts(cfg, s, ops + [Charge(Ffc.Tick(r), 0)], m, r, n + 1, r.region, others);
  }

  // With a single step the fourth tick starts the idle phase.
  lemma ReachesIdle(cfg: Config, s: Joint, ops: seq<JointOp>, e: Joint, r: Ffc.Reading, others: set<Name>) returns (e': Joint)
    requires Possible(cfg, s) && Leads(cfg, s, ops, e, others) && e.ffc.status.DEFAULT?
    requires Ffc.LowCurrent(cfg, r) && cfg.wlsFfcStepMax == 1
    ensures Leads(cfg, s, ops + LowCalls(r), e', others) && SameSupervisor(e, e')
    ensures e'.ffc.status.IDLE? && e'.ffc.fccCount == 0
  {
    var low := Charge(Ffc.Tick(r), 0);
    var o0 := ops + [Charge(Ffc.SwitchTo(r), 0)];
    var e0 := SwitchCounts(cfg, s, ops, e, r, others);
    var e2 := TwoTicksCount(cfg, s, o0, e0, r, 0, e.ffc.preRegion, others);
    e' := TwoTicksCount(cfg, s, o0 + [low] + [low], e2, r, 2, r.region, others);
    LowCallsAre(ops, r);
  }

  lemma IdleTickCounts(
    cfg: Config, s: Joint, ops: seq<JointOp>, e: Joint, r: Ffc.Reading, others: set<Name>) returns (e': Joint)
    requires Possible(cfg, s) && Leads(cfg, s, ops, e, others)
    requires e.ffc.status.IDLE? && e.ffc.fccCount < 6 && r.battRegion <= BATT_TEMP_HOT
    ensures Leads(cfg, s, ops + [Charge(Ffc.Tick(r), 0)], e', others) && SameSupervisor(e, e')
    ensures e'.ffc.status.IDLE? && e'.ffc.fccCount == e.ffc.fccCount + 1
  {
    OneMoreCall(cfg, s, ops, Ffc.Tick(r), e, others);
    e' := Step(cfg, e, Charge(Ffc.Tick(r), 0));
  }

  lemma ThreeTicksCount(cfg: Config, s: Joint, ops: seq<JointOp>, e: Joint, r: Ffc.Reading, others: set<Name>) returns (e': Joint)
    requires Possible(cfg, s) && Leads(cfg, s, ops, e, others)
    requires e.ffc.status.IDLE? && e.ffc.fccCount <= 3 && r.battRegion <= BATT_TEMP_HOT
    ensures Leads(cfg, s, ops + ThreeTicks(r), e', others) && SameSupervisor(e, e')
    ensures e'.ffc.status.IDLE? && e'.ffc.fccCount == e.ffc.fccCount + 3
  {
    var idle := Charge(Ffc.Tick(r), 0);
    var e1 := IdleTickCounts(cfg, s, ops, e, r, others);
    var e2 := IdleTickCounts(cfg, s, ops + [idle], e1, r, others);
    e' := IdleTickCounts(cfg, s, ops + [idle] + [idle], e2, r, others);
    assert ops + ThreeTicks(r) == ops + [idle] + [idle] + [idle];
  }

  // ------------------------------------------------------------------ to a full battery

  // A fresh supervisor on which `n` heartbeats have found a full battery.
  predicate Filled(s: Joint, e: Joint, n: nat) {
    && e.ffc == s.ffc && e.sup.temp == s.sup.temp && e.sup.charger == s.sup.charger
    && e.sup.flags == CLEARED.(chgDone := n == 3)
    && e.sup.full == BatteryFull.State(false, false, 0, if n == 3 then 0 else n)
  }

  // On the pad.
  predicate FullOnPad(cfg: Config, t: Tick)
    requires cfg.Shaped()
  {
    FullBeat(cfg, t) && !t.usbOnline && t.onlineAtVote
  }

  lemma FullBeatIsHarmonious(cfg: Config, s: Joint, t: Tick)
    requires Possible(cfg, s) && FullOnPad(cfg, t) && s.ffc == Ffc.INITIAL
    ensures Seen(s, t) == t && Harmonious(cfg, s, Heart(t))
  {
    WirelessOnlyMissesNothing(cfg, s.sup, t);
  }

  lemma FullBeatFills(cfg: Config, s: Joint, e: Joint, t: Tick, n: nat)
    requires Possible(cfg, s) && Possible(cfg, e) && FullOnPad(cfg, t)
    requires s.ffc == Ffc.INITIAL && s.sup.temp == TempMonitorObject.Initial(cfg) && !s.sup.charger.chgOvp
    requires n < 3 && Filled(s, e, n)
    ensures Filled(s, Step(cfg, e, Heart(t)), n + 1)
  {
    FullBeatCounts(cfg, e.sup, t);
  }

  lemma FullBeatLeads(
    cfg: Config, s: Joint, ops: seq<JointOp>, e: Joint, t: Tick, n: nat, others: set<Name>) returns (e': Joint)
    requires Possible(cfg, s) && FullOnPad(cfg, t) && n < 3
    requires s.ffc == Ffc.INITIAL && s.sup.temp == TempMonitorObject.Initial(cfg) && !s.sup.charger.chgOvp
    requires Leads(cfg, s, ops, e, others) && Filled(s, e, n)
    ensures Leads(cfg, s, ops + [Heart(t)], e', others) && Filled(s, e', n + 1)
  {
    e' := Step(cfg, e, Heart(t));
    FullBeatIsHarmonious(cfg, e, t);
    FullBeatFills(cfg, s, e, t, n);
    OneMoreOp(cfg, s, ops, Heart(t), e, others);
  }

  function FullBeats(t: Tick): seq<JointOp> {
    [Heart(t), Heart(t), Heart(t)]
  }

  lemma FullBeatsAre(ops: seq<JointOp>, t: Tick)
    ensures ops + FullBeats(t) == ops + [Heart(t)] + [Heart(t)] + [Heart(t)]
  {
  }

  lemma ReachesFull(cfg: Config, s: Joint, ops: seq<JointOp>, e: Joint, t: Tick, others: set<Name>) returns (e': Joint)
    requires Possible(cfg, s) && FullOnPad(cfg, t)
    requires s.ffc == Ffc.INITIAL && s.sup.temp == TempMonitorObject.Initial(cfg) && !s.sup.charger.chgOvp
    requires Leads(cfg, s, ops, e, others) && Filled(s, e, 0)
    ensures Leads(cfg, s, ops + FullBeats(t), e', others) && Filled(s, e', 3)
  {
    var e1 := FullBeatLeads(cfg, s, ops, e, t, 0, others);
    var e2 := FullBeatLeads(cfg, s, ops + [Heart(t)], e1, t, 1, others);
    e' := FullBeatLeads(cfg, s, ops + [Heart(t)] + [Heart(t)], e2, t, 2, others);
    FullBeatsAre(ops, t);
  }

  function FullThenIdle(t: Tick, r: Ffc.Reading): seq<JointOp> {
    FullBeats(t) + LowCalls(r)
  }

  // An idle phase with a full battery.
  predicate IdleAndDone(cfg: Config, e: Joint, n: nat) {
    && e.ffc.status.IDLE? && e.ffc.fccCount == n
    && e.sup.temp == TempMonitorObject.Initial(cfg) && !e.sup.charger.chgOvp
    && e.sup.flags == CLEARED.(chgDone := true)
  }

  lemma ReachesIdleAndDone(
    cfg: Config, over: int, notOver: int, hasCallback: bool, t: Tick, r: Ffc.Reading) returns (e: Joint)
    requires Ffc.Configured(cfg) && cfg.wlsFfcStepMax == 1 && Ffc.LowCurrent(cfg, r) && FullOnPad(cfg, t)
    ensures var s := FreshJoint(cfg, over, notOver, hasCallback);
            Possible(cfg, s) && Leads(cfg, s, FullThenIdle(t, r), e, {})
    ensures IdleAndDone(cfg, e, 0)
  {
    var s := FreshJoint(cfg, over, notOver, hasCallback);
    var full := ReachesFull(cfg, s, [], s, t, {});
    assert [] + FullBeats(t) == FullBeats(t);
    e := ReachesIdle(cfg, s, FullBeats(t), full, r, {});
  }

  lemma SixTicksCount(
    cfg: Config, s: Joint, ops: seq<JointOp>, e: Joint, r: Ffc.Reading, others: set<Name>) returns (e': Joint)
    requires Possible(cfg, s) && Leads(cfg, s, ops, e, others) && IdleAndDone(cfg, e, 0) && r.battRegion <= BATT_TEMP_HOT
    ensures Leads(cfg, s, ops + ThreeTicks(r) + ThreeTicks(r), e', others) && IdleAndDone(cfg, e', 6)
  {
    var half := ThreeTicksCount(cfg, s, ops, e, r, others);
    e' := ThreeTicksCount(cfg, s, ops + ThreeTicks(r), half, r, others);
  }

  // ------------------------------------------------------------------ the three upsets

  // The driver is reset during an idle phase.
  lemma ResetInIdle(cfg: Config, over: int, notOver: int, hasCallback: bool, r: Ffc.Reading, rc: int32)
    requires Ffc.Configured(cfg) && cfg.wlsFfcStepMax == 1 && Ffc.LowCurrent(cfg, r)
    ensures Upset(cfg, FreshJoint(cfg, over, notOver, hasCallback),
                  LowCalls(r) + [Reboot(rc)], {FFC_VOTER, STOP_VOTER})
  {
    var s := FreshJoint(cfg, over, notOver, hasCallback);
    var others := {FFC_VOTER, STOP_VOTER};
    FreshJointIsGood(cfg, over, notOver, hasCallback, others);
    var e := ReachesIdle(cfg, s, [], s, r, others);
    assert [] + LowCalls(r) == LowCalls(r);
    UpsetBy(cfg, s, LowCalls(r), Reboot(rc), e, others);
  }

  // An idle phase that began after charging was done comes to its end.
  lemma IdleEndsWhenDone(
    cfg: Config, over: int, notOver: int, hasCallback: bool, t: Tick, r: Ffc.Reading)
    requires Ffc.Configured(cfg) && cfg.wlsFfcStepMax == 1 && Ffc.LowCurrent(cfg, r) && FullOnPad(cfg, t)
    ensures Upset(cfg, FreshJoint(cfg, over, notOver, hasCallback),
                  FullThenIdle(t, r) + ThreeTicks(r) + ThreeTicks(r) + [Charge(Ffc.Tick(r), 0)], {})
  {
    var s := FreshJoint(cfg, over, notOver, hasCallback);
    FreshJointIsGood(cfg, over, notOver, hasCallback, {});
    var idle := ReachesIdleAndDone(cfg, over, notOver, hasCallback, t, r);
    var last := SixTicksCount(cfg, s, FullThenIdle(t, r), idle, r, {});
    UpsetBy(cfg, s, FullThenIdle(t, r) + ThreeTicks(r) + ThreeTicks(r), Charge(Ffc.Tick(r), 0), last, {});
  }

  // A heartbeat that finds the voltage low enough for a recharge, and does nothing else.
  predicate RechargeBeat(cfg: Config, t: Tick)
    requires cfg.Shaped()
  {
    var region := Hysteresis.RegionOf(cfg.battTempThr, t.temp);
    && t.present && !t.fastStarted && t.vchg.wlsType.TRX?
    && BATT_TEMP_UNKNOWN < region < BATT_TEMP_HOT
    && t.vbatMv <= cfg.wlsVbatdetMv[region] - t.decCv && t.vbatMv <= BATT_SOFT_OVP_MV
  }

  lemma RechargeBeatRecharges(cfg: Config, s: State, t: Tick)
    requires Supervisor.Shaped(cfg, s) && RechargeBeat(cfg, t)
    requires s.temp == TempMonitorObject.Initial(cfg) && s.flags == CLEARED.(chgDone := true) && !s.charger.chgOvp
    ensures RechargesOn(cfg, s, t) && !OverVoltage(s.flags, t) && !TimeoutVoted(s.flags, t)
  {
    assert BeforeTerm(cfg, s, t) == s;
  }

  // The voltage falls during an idle phase.
  lemma RechargeInIdle(
    cfg: Config, over: int, notOver: int, hasCallback: bool, t: Tick, r: Ffc.Reading, low: Tick)
    requires Ffc.Configured(cfg) && cfg.wlsFfcStepMax == 1 && Ffc.LowCurrent(cfg, r) && FullOnPad(cfg, t)
    requires RechargeBeat(cfg, low)
    ensures Upset(cfg, FreshJoint(cfg, over, notOver, hasCallback), FullThenIdle(t, r) + [Heart(low)], {})
  {
    var s := FreshJoint(cfg, over, notOver, hasCallback);
    FreshJointIsGood(cfg, over, notOver, hasCallback, {});
    var idle := ReachesIdleAndDone(cfg, over, notOver, hasCallback, t, r);
    RechargeBeatRecharges(cfg, idle.sup, Seen(idle, low));
    UpsetBy(cfg, s, FullThenIdle(t, r), Heart(low), idle, {});
  }
}
