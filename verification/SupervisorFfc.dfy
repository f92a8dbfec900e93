// The supervisor together with the flash-full-charge machine. Both cast USER_VOTER's vote
// on WLS_NOR_OUT_DISABLE, so that each can take back what the other has voted.
module SupervisorFfc {
  import opened Common
  import opened CommConfig
  import BatteryFull
  import Ffc
  import opened Voter
  import opened Supervisor
  import opened SupervisorLaw

  datatype Joint = Joint(sup: State, ffc: Ffc.State)

  datatype JointOp =
    | Heart(t: Tick)
    | Other(name: Name, on: bool, rc: int32)
    | Reboot(rc: int32)
    | Charge(call: Ffc.Op, rc: int32)

  ghost predicate Possible(cfg: Config, s: Joint) {
    Supervisor.Shaped(cfg, s.sup) && Ffc.Configured(cfg) && Ffc.StepInRange(cfg, s.ffc)
  }

  // Of the votes that the machine casts, those on the output-disable votable.
  function CastOut(out: VotableState, votes: seq<Ffc.PowerVote>, rc: int32): (r: VotableState)
    requires Voter.Shaped(out)
    ensures Voter.Shaped(r)
  {
    if |votes| == 0 then out
    else
      var k := |votes| - 1;
      var before := CastOut(out, votes[..k], rc);
      if votes[k].OutDisable? then OutVote(before, USER_VOTER, votes[k].on, rc) else before
  }

  // A heartbeat sees whether a session of the machine runs.
  function Seen(s: Joint, t: Tick): Tick {
    t.(ffcIdle := s.ffc.status.DEFAULT?)
  }

  // The status is initialised by the driver reset only.
  predicate CanCall(cfg: Config, s: Joint, call: Ffc.Op) {
    !call.Init? && Ffc.Legal(cfg, s.ffc, call)
  }

  function Step(cfg: Config, s: Joint, op: JointOp): (r: Joint)
    requires Possible(cfg, s) && (op.Charge? ==> CanCall(cfg, s, op.call))
    ensures Possible(cfg, r)
  {
    match op
    case Heart(t) => s.(sup := Heartbeat(cfg, s.sup, Seen(s, t)))
    case Other(name, on, rc) => s.(sup := s.sup.(out := OutVote(s.sup.out, name, on, rc)))
    case Reboot(rc) => Joint(Reset(cfg, s.sup, rc), Ffc.StatusInit(s.ffc))
    case Charge(call, rc) =>
      var out := Ffc.Apply(cfg, s.ffc, call);
      Joint(s.sup.(out := CastOut(s.sup.out, out.votes, rc)), out.state)
  }

  predicate Done(s: Joint) {
    s.sup.flags.chgDone && !s.sup.flags.rechargePending
  }

  // USER_VOTER stands for a full battery without a pending recharge, or an idle phase.
  ghost predicate UserStands(s: Joint) {
    Voter.Shaped(s.sup.out) && (On(s.sup.out, USER_VOTER) <==> Done(s) || s.ffc.status.IDLE?)
  }

  ghost predicate JointGood(s: Joint, others: set<Name>) {
    && Usable(s.sup.out, others)
    && UserStands(s) && TimeoutAgrees(s.sup) && BatteryAgrees(s.sup)
    && (s.sup.flags.rechargePending ==> s.sup.flags.chgDone)
  }

  // The output is disabled exactly when charging is done and no recharge is pending, or an
  // idle phase runs, or charging has timed out, or the battery voltage is too high, or
  // somebody else says so.
  ghost predicate JointLaw(s: Joint, others: set<Name>)
    requires Voter.Shaped(s.sup.out)
  {
    EffectiveResult(s.sup.out) ==
    BoolToInt(Done(s) || s.ffc.status.IDLE? || s.sup.flags.timeOut || s.sup.flags.battOvp
              || exists n :: n in others && On(s.sup.out, n))
  }

  predicate JointWanted(s: Joint) {
    Done(s) || s.ffc.status.IDLE? || s.sup.flags.timeOut || s.sup.flags.battOvp
  }

  lemma JointLawIs(s: Joint, others: set<Name>)
    requires Usable(s.sup.out, others)
    ensures JointLaw(s, others) <==> OthersOn(s.sup.out, others) || (AnyHeld(HeldIn(s.sup.out)) <==> JointWanted(s))
  {
    OutputIsVotes(s.sup.out, others);
  }

  lemma JointGoodIsLaw(s: Joint, others: set<Name>)
    requires JointGood(s, others)
    ensures JointLaw(s, others)
  {
    JointLawIs(s, others);
  }

  // ------------------------------------------------------------------ one heartbeat

  // While a session runs, the check for a full battery is skipped.
  lemma SessionIsNeverFull(cfg: Config, s: State, t: Tick)
    requires Supervisor.Shaped(cfg, s) && !t.ffcIdle
    ensures !Fills(cfg, s, t)
  {
  }

  // A recharge takes the vote of an idle phase back.
  predicate RechargesInIdle(cfg: Config, s: Joint, t: Tick)
    requires Possible(cfg, s)
  {
    s.ffc.status.IDLE? && t.present && !t.fastStarted && RechargesOn(cfg, s.sup, t)
  }

  predicate Upsets(cfg: Config, s: Joint, t: Tick)
    requires Possible(cfg, s)
  {
    Misses(cfg, s.sup, t) || RechargesInIdle(cfg, s, t)
  }

  // The votes after the checks, for voters and conditions that agreed before.
  lemma HeldWithSession(cfg: Config, s: Joint, t: Tick, others: set<Name>)
    requires Possible(cfg, s) && JointGood(s, others)
    requires t == Seen(s, t) && t.present && !t.fastStarted
    ensures var h := HeldAfterChecks(cfg, s.sup, t, HeldIn(s.sup.out)); var r := s.(sup := Checks(cfg, s.sup, t));
            && (r.sup.flags.rechargePending ==> r.sup.flags.chgDone)
            && h.battery == r.sup.flags.battOvp
            && (h.timeout == r.sup.flags.timeOut <==> !TimeoutMissed(s.sup.flags, t))
            && (TimeoutMissed(s.sup.flags, t) && !s.ffc.status.IDLE? ==> !h.user)
            && (h.user == (Done(r) || r.ffc.status.IDLE?) <==>
                !RechargesInIdle(cfg, s, t) &&
                !(FullMissed(cfg, BeforeTerm(cfg, s.sup, t), t) && !RechargesOn(cfg, s.sup, t)))
  {
    ChecksSetFlags(cfg, s.sup, t);
    if !t.ffcIdle {
      SessionIsNeverFull(cfg, BeforeTerm(cfg, s.sup, t), t);
    }
  }

  lemma ChecksAndSession(cfg: Config, s: Joint, t: Tick, others: set<Name>)
    requires Possible(cfg, s) && JointGood(s, others)
    requires t == Seen(s, t) && t.present && !t.fastStarted
    ensures JointGood(s.(sup := Checks(cfg, s.sup, t)), others) <==> !Upsets(cfg, s, t)
  {
    ChecksVote(cfg, s.sup, t, others);
    HeldWithSession(cfg, s, t, others);
  }

  // The temperature has no part in the votes.
  lemma TemperatureIsAside(s: Joint, r: Joint, others: set<Name>)
    requires s.ffc == r.ffc && s.sup.flags == r.sup.flags && s.sup.out == r.sup.out
    ensures JointGood(s, others) <==> JointGood(r, others)
    ensures Voter.Shaped(s.sup.out) ==> (JointLaw(s, others) <==> JointLaw(r, others))
  {
  }

  // What a heartbeat leaves, apart from the temperature.
  function Checked(cfg: Config, s: Joint, t: Tick): Joint
    requires Possible(cfg, s)
  {
    if t.present && !t.fastStarted then s.(sup := Checks(cfg, s.sup, t)) else s
  }

  lemma HeartbeatIsChecked(cfg: Config, s: Joint, t: Tick)
    requires Possible(cfg, s)
    ensures var r := Step(cfg, s, Heart(t)); var c := Checked(cfg, s, Seen(s, t));
            r.ffc == c.ffc && r.sup.flags == c.sup.flags && r.sup.out == c.sup.out
  {
  }

  lemma HeartbeatAndSession(cfg: Config, s: Joint, t: Tick, others: set<Name>)
    requires Possible(cfg, s) && JointGood(s, others)
    ensures JointGood(Step(cfg, s, Heart(t)), others) <==> !Upsets(cfg, s, Seen(s, t))
  {
    var u := Seen(s, t);
    HeartbeatIsChecked(cfg, s, t);
    TemperatureIsAside(Checked(cfg, s, u), Step(cfg, s, Heart(t)), others);
    if u.present && !u.fastStarted {
      ChecksAndSession(cfg, s, u, others);
    }
  }

  // During an idle phase only a recharge can break the law, since the idle phase disables
  // the output whatever else is missed.
  predicate Breaks(cfg: Config, s: Joint, t: Tick)
    requires Possible(cfg, s)
  {
    if s.ffc.status.IDLE? then RechargesInIdle(cfg, s, t) else Misses(cfg, s.sup, t)
  }

  lemma ChecksAndLaw(cfg: Config, s: Joint, t: Tick, others: set<Name>)
    requires Possible(cfg, s) && JointGood(s, others)
    requires t == Seen(s, t) && t.present && !t.fastStarted
    ensures Usable(Checks(cfg, s.sup, t).out, others)
    ensures JointLaw(s.(sup := Checks(cfg, s.sup, t)), others) <==> !Breaks(cfg, s, t) || Masked(s.sup, t, others)
  {
    var r := s.(sup := Checks(cfg, s.sup, t));
    ChecksVote(cfg, s.sup, t, others);
    HeldWithSession(cfg, s, t, others);
    ChecksSetFlags(cfg, s.sup, t);
    SameOthersOn(s.sup.out, r.sup.out, others);
    JointLawIs(r, others);
  }

  // A heartbeat keeps the law exactly when it breaks nothing or the output is disabled
  // anyway.
  lemma HeartbeatAndLaw(cfg: Config, s: Joint, t: Tick, others: set<Name>)
    requires Possible(cfg, s) && JointGood(s, others)
    ensures JointLaw(Step(cfg, s, Heart(t)), others) <==> !Breaks(cfg, s, Seen(s, t)) || Masked(s.sup, Seen(s, t), others)
  {
    var u := Seen(s, t);
    HeartbeatIsChecked(cfg, s, t);
    if u.present && !u.fastStarted {
      ChecksAndLaw(cfg, s, u, others);
    } else {
      JointGoodIsLaw(s, others);
    }
    TemperatureIsAside(Checked(cfg, s, u), Step(cfg, s, Heart(t)), others);
  }

  // ------------------------------------------------------------------ the machine

  lemma {:induction false} CastOutSwitchesUser(out: VotableState, votes: seq<Ffc.PowerVote>, rc: int32, others: set<Name>)
    requires Usable(out, others)
    ensures var r := CastOut(out, votes, rc);
            && Usable(r, others)
            && On(r, USER_VOTER) == Ffc.OutVote(On(out, USER_VOTER), votes)
            && forall n :: n != USER_VOTER ==> On(r, n) == On(out, n)
  {
    if |votes| > 0 {
      var k := |votes| - 1;
      CastOutSwitchesUser(out, votes[..k], rc, others);
      if votes[k].OutDisable? {
        VoteSwitchesOne(CastOut(out, votes[..k], rc), others, USER_VOTER, votes[k].on, rc);
      }
    }
  }

  // A call that ends the idle phase must withdraw the vote if charging is not done, and
  // must leave it if charging is done.
  predicate Hands(s: Joint, call: Ffc.Op) {
    s.ffc.status.IDLE? ==>
      match call
      case SwitchTo(_) => Done(s)
      case Tick(r) => s.ffc.fccCount >= 6 ==> (Ffc.LeavesDisabled(s.ffc, r) <==> Done(s))
      case Init => true
  }

  // What a call leaves to the supervisor.
  lemma CallVotes(cfg: Config, s: Joint, call: Ffc.Op, rc: int32, others: set<Name>)
    requires Possible(cfg, s) && Usable(s.sup.out, others) && CanCall(cfg, s, call)
    ensures var r := Step(cfg, s, Charge(call, rc)); var h := HeldIn(s.sup.out);
            && Usable(r.sup.out, others) && SameOthers(s.sup.out, r.sup.out, others)
            && HeldIn(r.sup.out) == h.(user := Ffc.OutVote(h.user, Ffc.Apply(cfg, s.ffc, call).votes))
            && r.sup == s.sup.(out := r.sup.out) && r.ffc == Ffc.Apply(cfg, s.ffc, call).state
  {
    CastOutSwitchesUser(s.sup.out, Ffc.Apply(cfg, s.ffc, call).votes, rc, others);
  }

  lemma HandsKeepsUser(cfg: Config, s: Joint, call: Ffc.Op)
    requires Possible(cfg, s) && UserStands(s) && CanCall(cfg, s, call)
    ensures var out := Ffc.Apply(cfg, s.ffc, call); var user := Ffc.OutVote(On(s.sup.out, USER_VOTER), out.votes);
            (user <==> Done(s) || out.state.status.IDLE?) <==> Hands(s, call)
  {
    Ffc.OutVoteOfCall(cfg, s.ffc, call, On(s.sup.out, USER_VOTER));
  }

  lemma CallAndSupervisor(cfg: Config, s: Joint, call: Ffc.Op, rc: int32, others: set<Name>)
    requires Possible(cfg, s) && JointGood(s, others) && CanCall(cfg, s, call)
    ensures JointGood(Step(cfg, s, Charge(call, rc)), others) <==> Hands(s, call)
  {
    CallVotes(cfg, s, call, rc, others);
    HandsKeepsUser(cfg, s, call);
  }

  // A timeout, an over-voltage or somebody else disables the output.
  ghost predicate Covered(s: Joint, others: set<Name>)
    requires Voter.Shaped(s.sup.out)
  {
    OthersOn(s.sup.out, others) || s.sup.flags.timeOut || s.sup.flags.battOvp
  }

  lemma CallAndLaw(cfg: Config, s: Joint, call: Ffc.Op, rc: int32, others: set<Name>)
    requires Possible(cfg, s) && JointGood(s, others) && CanCall(cfg, s, call)
    ensures JointLaw(Step(cfg, s, Charge(call, rc)), others) <==> Hands(s, call) || Covered(s, others)
  {
    var r := Step(cfg, s, Charge(call, rc));
    CallVotes(cfg, s, call, rc, others);
    HandsKeepsUser(cfg, s, call);
    SameOthersOn(s.sup.out, r.sup.out, others);
    JointLawIs(r, others);
  }

  // ------------------------------------------------------------------ the driver reset

  lemma ResetAndSession(cfg: Config, s: Joint, rc: int32, others: set<Name>)
    requires Possible(cfg, s) && JointGood(s, others) && {FFC_VOTER, STOP_VOTER} <= others
    ensures JointGood(Step(cfg, s, Reboot(rc)), others) <==> !s.sup.flags.timeOut && !s.ffc.status.IDLE?
  {
    ResetVotes(s.sup.out, rc, others);
  }

  // A reset in an idle phase withdraws its vote, and one after a timeout leaves the other:
  // if both, the output happens to be disabled as it should be.
  lemma ResetAndLaw(cfg: Config, s: Joint, rc: int32, others: set<Name>)
    requires Possible(cfg, s) && JointGood(s, others) && {FFC_VOTER, STOP_VOTER} <= others
    ensures JointLaw(Step(cfg, s, Reboot(rc)), others) <==>
            (s.sup.flags.timeOut <==> s.ffc.status.IDLE?) || OthersOn(s.sup.out, others - {FFC_VOTER, STOP_VOTER})
  {
    ResetVotes(s.sup.out, rc, others);
    OthersAfterReset(s.sup.out, rc, others);
    JointLawIs(Step(cfg, s, Reboot(rc)), others);
  }

  // ------------------------------------------------------------------ one operation

  // The names that vote beside the supervisor are among `others`.
  predicate Allowed(cfg: Config, s: Joint, op: JointOp, others: set<Name>) {
    && (op.Charge? ==> CanCall(cfg, s, op.call))
    && (op.Other? ==> op.name in others)
    && (op.Reboot? ==> {FFC_VOTER, STOP_VOTER} <= others)
  }

  predicate Harmonious(cfg: Config, s: Joint, op: JointOp)
    requires Possible(cfg, s)
  {
    match op
    case Heart(t) => !Upsets(cfg, s, Seen(s, t))
    case Other(_, _, _) => true
    case Reboot(_) => !s.sup.flags.timeOut && !s.ffc.status.IDLE?
    case Charge(call, _) => Hands(s, call)
  }

  // One operation keeps voters and conditions together exactly when it is harmonious.
  lemma StepKeepsJointGood(cfg: Config, s: Joint, op: JointOp, others: set<Name>)
    requires Possible(cfg, s) && JointGood(s, others) && Allowed(cfg, s, op, others)
    ensures JointGood(Step(cfg, s, op), others) <==> Harmonious(cfg, s, op)
  {
    match op
    case Heart(t) => HeartbeatAndSession(cfg, s, t, others);
    case Other(name, on, rc) => VoteSwitchesOne(s.sup.out, others, name, on, rc);
    case Reboot(rc) => ResetAndSession(cfg, s, rc, others);
    case Charge(call, rc) => CallAndSupervisor(cfg, s, call, rc, others);
  }

  // What an operation may do without breaking the law, harmonious or not.
  ghost predicate Lawful(cfg: Config, s: Joint, op: JointOp, others: set<Name>)
    requires Possible(cfg, s)
  {
    match op
    case Heart(t) => !Breaks(cfg, s, Seen(s, t)) || Masked(s.sup, Seen(s, t), others)
    case Other(_, _, _) => true
    case Reboot(_) =>
      (s.sup.flags.timeOut <==> s.ffc.status.IDLE?) || OthersOn(s.sup.out, others - {FFC_VOTER, STOP_VOTER})
    case Charge(call, _) => Hands(s, call) || Covered(s, others)
  }

  // One operation keeps the law exactly when it is lawful.
  lemma StepKeepsLaw(cfg: Config, s: Joint, op: JointOp, others: set<Name>)
    requires Possible(cfg, s) && JointGood(s, others) && Allowed(cfg, s, op, others)
    ensures JointLaw(Step(cfg, s, op), others) <==> Lawful(cfg, s, op, others)
  {
    match op
    case Heart(t) => HeartbeatAndLaw(cfg, s, t, others);
    case Other(name, on, rc) =>
      VoteSwitchesOne(s.sup.out, others, name, on, rc);
      JointGoodIsLaw(Step(cfg, s, op), others);
    case Reboot(rc) => ResetAndLaw(cfg, s, rc, others);
    case Charge(call, rc) => CallAndLaw(cfg, s, call, rc, others);
  }

  // ------------------------------------------------------------------ whole runs

  predicate History(cfg: Config, s: Joint, ops: seq<JointOp>, others: set<Name>)
    requires Possible(cfg, s)
    decreases |ops|, 0
  {
    |ops| == 0 ||
    var k := |ops| - 1;
    History(cfg, s, ops[..k], others) && Allowed(cfg, RunJoint(cfg, s, ops[..k], others), ops[k], others)
  }

  function RunJoint(cfg: Config, s: Joint, ops: seq<JointOp>, others: set<Name>): (r: Joint)
    requires Possible(cfg, s) && History(cfg, s, ops, others)
    ensures Possible(cfg, r)
    decreases |ops|, 1
  {
    if |ops| == 0 then s else Step(cfg, RunJoint(cfg, s, ops[..|ops| - 1], others), ops[|ops| - 1])
  }

  predicate AllHarmonious(cfg: Config, s: Joint, ops: seq<JointOp>, others: set<Name>)
    requires Possible(cfg, s) && History(cfg, s, ops, others)
  {
    |ops| == 0 ||
    var k := |ops| - 1;
    AllHarmonious(cfg, s, ops[..k], others) && Harmonious(cfg, RunJoint(cfg, s, ops[..k], others), ops[k])
  }

  // Voters and conditions have agreed at every point of the run so far.
  ghost predicate AlwaysGood(cfg: Config, s: Joint, ops: seq<JointOp>, others: set<Name>)
    requires Possible(cfg, s) && History(cfg, s, ops, others)
  {
    && JointGood(RunJoint(cfg, s, ops, others), others)
    && (|ops| > 0 ==> AlwaysGood(cfg, s, ops[..|ops| - 1], others))
  }

  // Over every interleaving of heartbeats, calls of the machine, votes of others and driver
  // resets: voters and conditions agree throughout if and only if every operation is
  // harmonious, and then the output is disabled exactly when it should be.
  lemma {:induction false} JointRunObeysLaw(cfg: Config, s: Joint, ops: seq<JointOp>, others: set<Name>)
    requires Possible(cfg, s) && JointGood(s, others) && History(cfg, s, ops, others)
    ensures AlwaysGood(cfg, s, ops, others) <==> AllHarmonious(cfg, s, ops, others)
    ensures AllHarmonious(cfg, s, ops, others) ==> JointLaw(RunJoint(cfg, s, ops, others), others)
  {
    if |ops| > 0 {
      var k := |ops| - 1;
      JointRunObeysLaw(cfg, s, ops[..k], others);
      if AlwaysGood(cfg, s, ops[..k], others) {
        StepKeepsJointGood(cfg, RunJoint(cfg, s, ops[..k], others), ops[k], others);
      }
    }
    if AllHarmonious(cfg, s, ops, others) {
      JointGoodIsLaw(RunJoint(cfg, s, ops, others), others);
    }
  }

  // ------------------------------------------------------------------ any run at all

  // The votes after one operation, told by what it finds, whether or not they agreed with
  // anything before.
  function HeldAfterOp(cfg: Config, s: Joint, op: JointOp, h: Held): Held
    requires Possible(cfg, s) && (op.Charge? ==> CanCall(cfg, s, op.call))
  {
    match op
    case Heart(t) =>
      var u := Seen(s, t);
      if u.present && !u.fastStarted then HeldAfterChecks(cfg, s.sup, u, h) else h
    case Other(_, _, _) => h
    case Reboot(_) => Held(false, h.timeout, false)
    case Charge(call, _) => h.(user := Ffc.OutVote(h.user, Ffc.Apply(cfg, s.ffc, call).votes))
  }

  function HeldAfter(cfg: Config, s: Joint, ops: seq<JointOp>, others: set<Name>, h: Held): Held
    requires Possible(cfg, s) && History(cfg, s, ops, others)
  {
    if |ops| == 0 then h
    else
      var k := |ops| - 1;
      HeldAfterOp(cfg, RunJoint(cfg, s, ops[..k], others), ops[k], HeldAfter(cfg, s, ops[..k], others, h))
  }

  lemma StepVotes(cfg: Config, s: Joint, op: JointOp, others: set<Name>)
    requires Possible(cfg, s) && Usable(s.sup.out, others) && Allowed(cfg, s, op, others)
    ensures Usable(Step(cfg, s, op).sup.out, others)
    ensures HeldIn(Step(cfg, s, op).sup.out) == HeldAfterOp(cfg, s, op, HeldIn(s.sup.out))
  {
    match op
    case Heart(t) =>
      HeartbeatIsChecked(cfg, s, t);
      ChecksVote(cfg, s.sup, Seen(s, t), others);
    case Other(name, on, rc) => VoteSwitchesOne(s.sup.out, others, name, on, rc);
    case Reboot(rc) => ResetVotes(s.sup.out, rc, others);
    case Charge(call, rc) => CallVotes(cfg, s, call, rc, others);
  }

  // After any run at all, harmonious or not, the law holds if and only if somebody else
  // disables the output, or the run leaves a vote in force exactly when it leaves a reason.
  lemma {:induction false} LawAfterAnyRun(cfg: Config, s: Joint, ops: seq<JointOp>, others: set<Name>)
    requires Possible(cfg, s) && Usable(s.sup.out, others) && History(cfg, s, ops, others)
    ensures var r := RunJoint(cfg, s, ops, others); var h := HeldAfter(cfg, s, ops, others, HeldIn(s.sup.out));
            && Usable(r.sup.out, others) && HeldIn(r.sup.out) == h
            && (JointLaw(r, others) <==> OthersOn(r.sup.out, others) || (AnyHeld(h) <==> JointWanted(r)))
  {
    if |ops| > 0 {
      var k := |ops| - 1;
      LawAfterAnyRun(cfg, s, ops[..k], others);
      StepVotes(cfg, RunJoint(cfg, s, ops[..k], others), ops[k], others);
    }
    JointLawIs(RunJoint(cfg, s, ops, others), others);
  }

  // ------------------------------------------------------------------ from a fresh start

  function FreshJoint(cfg: Config, over: int, notOver: int, hasCallback: bool): Joint {
    Joint(Fresh(cfg, BatteryFull.INITIAL, over, notOver, hasCallback), Ffc.INITIAL)
  }

  lemma FreshJointIsGood(cfg: Config, over: int, notOver: int, hasCallback: bool, others: set<Name>)
    requires Ffc.Configured(cfg) && OWN !! others && |others| + 3 <= NUM_MAX_CLIENTS
    ensures var s := FreshJoint(cfg, over, notOver, hasCallback);
            Possible(cfg, s) && JointGood(s, others) && !Covered(s, others)
  {
    FreshIsGood(cfg, BatteryFull.INITIAL, over, notOver, hasCallback, others);
  }

  lemma FreshRunObeysLaw(
    cfg: Config, over: int, notOver: int, hasCallback: bool, ops: seq<JointOp>, others: set<Name>)
    requires Ffc.Configured(cfg) && OWN !! others && |others| + 3 <= NUM_MAX_CLIENTS
    requires History(cfg, FreshJoint(cfg, over, notOver, hasCallback), ops, others)
    ensures var s := FreshJoint(cfg, over, notOver, hasCallback);
            && (AlwaysGood(cfg, s, ops, others) <==> AllHarmonious(cfg, s, ops, others))
            && (AllHarmonious(cfg, s, ops, others) ==> JointLaw(RunJoint(cfg, s, ops, others), others))
  {
    FreshJointIsGood(cfg, over, notOver, hasCallback, others);
    JointRunObeysLaw(cfg, FreshJoint(cfg, over, notOver, hasCallback), ops, others);
  }
}
