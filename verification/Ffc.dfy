// The flash-full-charge phase machine: oplus_chg_comm_switch_ffc and
// oplus_chg_comm_check_ffc.
module Ffc {
  import opened Common
  import opened CommConfig

  datatype Status = DEFAULT | FAST | IDLE

  // Fields of struct oplus_chg_comm and the static region of oplus_chg_comm_check_ffc.
  datatype State = State(status: Status, step: int, fccCount: int, fvCount: int, charging: bool, preRegion: nat)

  // Readings of one call: `region` is the FFC temperature region just determined and
  // `battRegion` the battery one; the last four say which votables exist.
  datatype Reading = Reading(
    region: nat, battRegion: nat, vbatMv: int, ibatMa: int, decCv: int,
    usbOnline: bool, wlsOnline: bool,
    icl: bool, fcc: bool, fv: bool, outDisable: bool)

  // Votes cast by USER_VOTER.
  datatype PowerVote = Icl(ma: int) | Fcc(ma: int) | Fv(mv: int) | OutDisable(on: bool)

  datatype Outcome = Outcome(state: State, rc: int32, votes: seq<PowerVote>)

  const INITIAL := State(DEFAULT, 0, 0, 0, false, FFC_TEMP_NORMAL)

  predicate Allowed(region: nat) {
    region == FFC_TEMP_PRE_NORMAL || region == FFC_TEMP_NORMAL
  }

  ghost predicate Configured(cfg: Config) {
    cfg.Shaped() && 1 <= cfg.wlsFfcStepMax <= FFC_CHG_STEP_MAX
  }

  // In a fast phase the step indexes the tables.
  predicate StepInRange(cfg: Config, s: State) {
    s.status.FAST? ==> 0 <= s.step < cfg.wlsFfcStepMax
  }

  // With wireless charging active, a fast tick outside the two allowed regions reads past
  // the cutoff table, unless the guard ends the phase before; the guard compares with the
  // region seen by an earlier fast tick.
  predicate Defined(s: State, r: Reading) {
    && r.battRegion <= BATT_TEMP_HOT
    && (s.status.FAST? && r.region == s.preRegion && Wireless(r) ==> Allowed(r.region))
  }

  predicate Wireless(r: Reading) {
    r.wlsOnline && !r.usbOnline
  }

  function Stop(s: State): State {
    s.(status := DEFAULT, fccCount := 0, fvCount := 0, charging := false)
  }

  function IclMa(cfg: Config, step: int, region: nat): int
    requires cfg.Shaped() && 0 <= step < FFC_CHG_STEP_MAX && Allowed(region)
  {
    cfg.wlsFfcIclMa[step][region - 1]
  }

  function FccMa(cfg: Config, step: int, region: nat): int
    requires cfg.Shaped() && 0 <= step < FFC_CHG_STEP_MAX && Allowed(region)
  {
    cfg.wlsFfcFccMa[step][region - 1]
  }

  // oplus_chg_comm_switch_ffc.
  function Switch(cfg: Config, s: State, r: Reading): Outcome
    requires Configured(cfg)
  {
    var s0 := s.(step := 0);
    if !Allowed(r.region) || !Wireless(r) then Outcome(Stop(s0), -EINVAL, [])
    else if !r.icl || !r.fcc || !r.fv || !r.outDisable then Outcome(Stop(s0), -ENODEV, [])
    else
      Outcome(s0.(status := FAST, fccCount := 0, fvCount := 0, charging := true), 0,
              [Icl(IclMa(cfg, 0, r.region)), Fv(cfg.wlsFfcFvMv[0]), Fcc(FccMa(cfg, 0, r.region))])
  }

  // A battery voltage at the cutoff of the step, and a current below it.
  predicate AtFvCutoff(cfg: Config, s: State, r: Reading)
    requires Configured(cfg) && StepInRange(cfg, s) && s.status.FAST?
  {
    r.vbatMv >= cfg.wlsFfcFvCutoffMv[s.step] - r.decCv
  }

  predicate BelowFccCutoff(cfg: Config, s: State, r: Reading)
    requires Configured(cfg) && StepInRange(cfg, s) && s.status.FAST? && Allowed(r.region)
  {
    Abs(r.ibatMa) < cfg.wlsFfcFccCutoffMa[s.step][r.region - 1]
  }

  // The two counters of a fast tick; either may advance the step, and both may at once.
  function Advance(cfg: Config, s: State, r: Reading): State
    requires Configured(cfg) && StepInRange(cfg, s) && s.status.FAST? && Allowed(r.region)
  {
    var fv := s.fvCount + if AtFvCutoff(cfg, s, r) then 1 else 0;
    var fcc := if BelowFccCutoff(cfg, s, r) then s.fccCount + 1 else 0;
    var steps := (if fv > 5 then 1 else 0) + if fcc > 3 then 1 else 0;
    s.(step := s.step + steps, fvCount := if fv > 5 || fcc > 3 then 0 else fv, fccCount := fcc)
  }

  function CheckFast(cfg: Config, s: State, r: Reading): Outcome
    requires Configured(cfg) && StepInRange(cfg, s) && s.status.FAST? && Defined(s, r)
  {
    var moved := r.region != s.preRegion;
    var s0 := s.(preRegion := r.region);
    if moved && !Allowed(r.region) then Outcome(Stop(s0), 0, [])
    else if !Wireless(r) then Outcome(Stop(s0), -EINVAL, [])
    else if moved && (!r.icl || !r.fcc) then Outcome(Stop(s0), -ENODEV, [])
    else
      var votes := if moved then [Icl(IclMa(cfg, s.step, r.region)), Fcc(FccMa(cfg, s.step, r.region))] else [];
      var s1 := Advance(cfg, s0, r);
      if s1.step >= cfg.wlsFfcStepMax then
        if !r.outDisable then Outcome(Stop(s1), -ENODEV, votes)
        else Outcome(s1.(status := IDLE, fccCount := 0, fvCount := 0), 0,
                     votes + [OutDisable(true)] + if r.fv then [Fv(cfg.vbatmaxMv[r.battRegion] - r.decCv)] else [])
      else if !r.icl || !r.fcc || !r.fv then Outcome(Stop(s1), -ENODEV, votes)
      else Outcome(s1, 0, votes + [Icl(IclMa(cfg, s1.step, r.region)), Fv(cfg.wlsFfcFvMv[s1.step] - r.decCv),
                                   Fcc(FccMa(cfg, s1.step, r.region))])
  }

  function CheckIdle(s: State, r: Reading): Outcome {
    if s.fccCount + 1 <= 6 then Outcome(s.(fccCount := s.fccCount + 1), 0, [])
    else if r.usbOnline then Outcome(Stop(s), -EINVAL, [])
    else if r.wlsOnline && !r.outDisable then Outcome(Stop(s), -ENODEV, [])
    else Outcome(Stop(s), 1, if r.wlsOnline then [OutDisable(false)] else [])
  }

  // oplus_chg_comm_check_ffc.
  function Check(cfg: Config, s: State, r: Reading): Outcome
    requires Configured(cfg) && StepInRange(cfg, s) && Defined(s, r)
  {
    match s.status
    case DEFAULT => Outcome(Stop(s).(step := 0), -EINVAL, [])
    case FAST => CheckFast(cfg, s, r)
    case IDLE => CheckIdle(s, r)
  }

  // --------------------------------------------------------------- the step index

  // Every call of either function leaves the step inside the tables, even a tick on
  // which both counters advance it.
  lemma StepStaysInRange(cfg: Config, s: State, r: Reading)
    requires Configured(cfg) && StepInRange(cfg, s)
    ensures StepInRange(cfg, Switch(cfg, s, r).state)
    ensures Defined(s, r) ==> StepInRange(cfg, Check(cfg, s, r).state)
  {
  }

  // ------------------------------------------------------------- one call, in full

  // What the two counters and the step become on a fast tick, by the tables of the step.
  function FvTicks(cfg: Config, s: State, r: Reading): int
    requires Configured(cfg) && StepInRange(cfg, s) && s.status.FAST?
  {
    s.fvCount + if r.vbatMv + r.decCv >= cfg.wlsFfcFvCutoffMv[s.step] then 1 else 0
  }

  function FccTicks(cfg: Config, s: State, r: Reading): int
    requires Configured(cfg) && StepInRange(cfg, s) && s.status.FAST? && 1 <= r.region <= 2
  {
    var limit := cfg.wlsFfcFccCutoffMa[s.step][r.region - 1];
    if -limit < r.ibatMa < limit then s.fccCount + 1 else 0
  }

  // The sixth tick at the voltage of the step advances it; so does the fourth tick in a row
  // with a low current, and each one after that.
  function NextStep(cfg: Config, s: State, r: Reading): int
    requires Configured(cfg) && StepInRange(cfg, s) && s.status.FAST? && 1 <= r.region <= 2
  {
    s.step + (if FvTicks(cfg, s, r) >= 6 then 1 else 0) + (if FccTicks(cfg, s, r) >= 4 then 1 else 0)
  }

  // A fast tick with wireless charging active, in an allowed region, with every votable.
  lemma FastTickCounts(cfg: Config, s: State, r: Reading)
    requires Configured(cfg) && StepInRange(cfg, s) && s.status.FAST? && r.battRegion <= BATT_TEMP_HOT
    requires 1 <= r.region <= 2 && r.wlsOnline && !r.usbOnline && r.icl && r.fcc && r.fv && r.outDisable
    ensures var step := NextStep(cfg, s, r);
            Check(cfg, s, r).state ==
            if step >= cfg.wlsFfcStepMax then State(IDLE, step, 0, 0, s.charging, r.region)
            else State(FAST, step, FccTicks(cfg, s, r), if step > s.step then 0 else FvTicks(cfg, s, r), s.charging, r.region)
  {
  }

  // The three reasons for which a fast tick ends the phase before its time.
  predicate FindsBadRegion(s: State, r: Reading) {
    r.region != s.preRegion && !(1 <= r.region <= 2)
  }

  predicate FindsNoCharger(r: Reading) {
    r.usbOnline || !r.wlsOnline
  }

  // A votable that the tick would vote on is missing.
  predicate FindsNoVotable(cfg: Config, s: State, r: Reading)
    requires Configured(cfg) && StepInRange(cfg, s) && s.status.FAST? && 1 <= r.region <= 2
  {
    || (r.region != s.preRegion && !(r.icl && r.fcc))
    || (if NextStep(cfg, s, r) >= cfg.wlsFfcStepMax then !r.outDisable else !(r.icl && r.fcc && r.fv))
  }

  lemma FastTickEnds(cfg: Config, s: State, r: Reading)
    requires Configured(cfg) && StepInRange(cfg, s) && s.status.FAST? && Defined(s, r)
    ensures var out := Check(cfg, s, r);
            if FindsBadRegion(s, r) then out.rc == 0 && out.votes == [] && out.state == State(DEFAULT, s.step, 0, 0, false, r.region)
            else if FindsNoCharger(r) then
              out.rc == -EINVAL && out.votes == [] && out.state == State(DEFAULT, s.step, 0, 0, false, r.region)
            else if FindsNoVotable(cfg, s, r) then
              && out.rc == -ENODEV && out.state.status == DEFAULT && !out.state.charging
              && out.state.fccCount == out.state.fvCount == 0 && out.state.preRegion == r.region
            else out.rc == 0 && out.state.status != DEFAULT
  {
  }

  // The other calls, in full.
  lemma OtherTicks(cfg: Config, s: State, r: Reading)
    requires Configured(cfg) && !s.status.FAST? && Defined(s, r)
    ensures var out := Check(cfg, s, r);
            if s.status.DEFAULT? then out == Outcome(State(DEFAULT, 0, 0, 0, false, s.preRegion), -EINVAL, [])
            else if s.fccCount < 6 then out == Outcome(s.(fccCount := s.fccCount + 1), 0, [])
            else
              && out.state == State(DEFAULT, s.step, 0, 0, false, s.preRegion)
              && (out.rc == -EINVAL <==> r.usbOnline)
              && (out.rc == -ENODEV <==> !r.usbOnline && r.wlsOnline && !r.outDisable)
              && (out.rc == 1 <==> !r.usbOnline && (r.wlsOnline ==> r.outDisable))
              && out.votes == if out.rc == 1 && r.wlsOnline then [OutDisable(false)] else []
  {
  }

  lemma SwitchStarts(cfg: Config, s: State, r: Reading)
    requires Configured(cfg)
    ensures var out := Switch(cfg, s, r);
            && (out.rc == 0 <==>
                  1 <= r.region <= 2 && r.wlsOnline && !r.usbOnline && r.icl && r.fcc && r.fv && r.outDisable)
            && (out.rc == -EINVAL <==> !(1 <= r.region <= 2) || r.usbOnline || !r.wlsOnline)
            && (out.rc == 0 || out.rc == -EINVAL || out.rc == -ENODEV)
            && out.state == (if out.rc == 0 then State(FAST, 0, 0, 0, true, s.preRegion)
                             else State(DEFAULT, 0, 0, 0, false, s.preRegion))
            && (out.rc != 0 ==> out.votes == [])
  {
  }

  // ------------------------------------------------------------------ termination

  // Wireless charging goes on as it should.
  predicate Steady(r: Reading) {
    r.wlsOnline && !r.usbOnline && r.icl && r.fcc && r.fv && r.outDisable && r.battRegion <= BATT_TEMP_HOT
  }

  // A steady fast tick in an allowed region with the voltage at its cutoff.
  predicate Pushes(cfg: Config, s: State, r: Reading)
    requires Configured(cfg) && StepInRange(cfg, s)
  {
    Steady(r) &&
    (s.status.FAST? ==> Allowed(r.region) && r.vbatMv >= cfg.wlsFfcFvCutoffMv[s.step] - r.decCv)
  }

  predicate AllPush(cfg: Config, s: State, rs: seq<Reading>)
    requires Configured(cfg) && StepInRange(cfg, s)
    decreases |rs|
  {
    |rs| > 0 ==>
      Pushes(cfg, s, rs[0]) && (StepStaysInRange(cfg, s, rs[0]); AllPush(cfg, Check(cfg, s, rs[0]).state, rs[1..]))
  }

  // Ticks of the fast phase that are left at most.
  function Left(cfg: Config, s: State): int {
    6 * (cfg.wlsFfcStepMax - s.step) - s.fvCount
  }

  predicate Running(cfg: Config, s: State) {
    s.status.FAST? && StepInRange(cfg, s) && 0 <= s.fvCount <= 5
  }

  // The current never falls below the cutoff, so that only the voltage ends a step.
  predicate CurrentHolds(cfg: Config, s: State, r: Reading)
    requires Configured(cfg) && StepInRange(cfg, s) && s.status.FAST?
  {
    Allowed(r.region) && Abs(r.ibatMa) >= cfg.wlsFfcFccCutoffMa[s.step][r.region - 1]
  }

  lemma PushUsesATick(cfg: Config, s: State, r: Reading)
    requires Configured(cfg) && Running(cfg, s) && Pushes(cfg, s, r)
    ensures var s' := Check(cfg, s, r).state;
            if Running(cfg, s') then 0 < Left(cfg, s') < Left(cfg, s)
            else s'.status == IDLE && s'.fccCount == 0
    ensures CurrentHolds(cfg, s, r) && s.fccCount == 0 ==>
              var s' := Check(cfg, s, r).state;
              && s'.fccCount == 0
              && (Running(cfg, s') <==> Left(cfg, s) > 1)
              && (Running(cfg, s') ==> Left(cfg, s') == Left(cfg, s) - 1)
  {
  }

  // How many ticks of a trace the fast phase takes, and the state they lead to.
  function FastPhase(cfg: Config, s: State, rs: seq<Reading>): (res: (nat, State))
    requires Configured(cfg) && StepInRange(cfg, s) && AllPush(cfg, s, rs)
    ensures res.0 <= |rs|
    decreases |rs|
  {
    if |rs| == 0 || !s.status.FAST? then (0, s)
    else
      StepStaysInRange(cfg, s, rs[0]);
      var (n, end) := FastPhase(cfg, Check(cfg, s, rs[0]).state, rs[1..]);
      (1 + n, end)
  }

  predicate CurrentAlwaysHolds(cfg: Config, s: State, rs: seq<Reading>)
    requires Configured(cfg) && StepInRange(cfg, s) && AllPush(cfg, s, rs)
    decreases |rs|
  {
    |rs| > 0 && s.status.FAST? ==>
      && CurrentHolds(cfg, s, rs[0])
      && (StepStaysInRange(cfg, s, rs[0]); CurrentAlwaysHolds(cfg, Check(cfg, s, rs[0]).state, rs[1..]))
  }

  lemma {:induction false} FastPhaseEnds(cfg: Config, s: State, rs: seq<Reading>)
    requires Configured(cfg) && Running(cfg, s) && AllPush(cfg, s, rs) && |rs| >= Left(cfg, s)
    ensures var (n, end) := FastPhase(cfg, s, rs);
            && 1 <= n <= Left(cfg, s)
            && end.status == IDLE && end.fccCount == 0
            && (s.fccCount == 0 && CurrentAlwaysHolds(cfg, s, rs) ==> n == Left(cfg, s))
    decreases |rs|
  {
    PushUsesATick(cfg, s, rs[0]);
    StepStaysInRange(cfg, s, rs[0]);
    var s' := Check(cfg, s, rs[0]).state;
    if s'.status.FAST? {
      FastPhaseEnds(cfg, s', rs[1..]);
    }
  }

  // After a successful switch, 6 ticks per step are enough to reach the idle phase, and
  // exactly as many are needed while the charging current stays up.
  lemma SwitchReachesIdle(cfg: Config, s: State, r: Reading, rs: seq<Reading>)
    requires Configured(cfg) && Switch(cfg, s, r).rc == 0
    requires AllPush(cfg, Switch(cfg, s, r).state, rs) && |rs| >= 6 * cfg.wlsFfcStepMax
    ensures var s0 := Switch(cfg, s, r).state; var (n, end) := FastPhase(cfg, s0, rs);
            && 1 <= n <= 6 * cfg.wlsFfcStepMax
            && end.status == IDLE && end.fccCount == 0
            && (CurrentAlwaysHolds(cfg, s0, rs) ==> n == 6 * cfg.wlsFfcStepMax)
  {
    FastPhaseEnds(cfg, Switch(cfg, s, r).state, rs);
  }

  function RunIdle(s: State, rs: seq<Reading>): State
    requires s.status == IDLE
    decreases |rs|
  {
    if |rs| == 0 then s
    else
      var s' := CheckIdle(s, rs[0]).state;
      if s'.status == IDLE then RunIdle(s', rs[1..]) else s'
  }

  // The idle phase lasts six ticks and ends on the seventh, whatever is read.
  lemma {:induction false} IdleEndsOnTheSeventh(s: State, rs: seq<Reading>)
    requires s.status == IDLE && 0 <= s.fccCount <= 6
    ensures RunIdle(s, rs).status == if s.fccCount + |rs| <= 6 then IDLE else DEFAULT
    decreases |rs|
  {
    if |rs| > 0 && s.fccCount < 6 {
      IdleEndsOnTheSeventh(CheckIdle(s, rs[0]).state, rs[1..]);
    }
  }

  // ------------------------------------------------------------- sessions

  // What oplus_chg_comm_status_init does to the machine: the phase and the counters stay.
  function StatusInit(s: State): State {
    s.(step := 0, charging := false)
  }

  // Either function may be called, and the status initialised, in any phase.
  datatype Op = SwitchTo(r: Reading) | Tick(r: Reading) | Init

  predicate Legal(cfg: Config, s: State, op: Op) {
    op.Tick? ==> Defined(s, op.r)
  }

  function Apply(cfg: Config, s: State, op: Op): (out: Outcome)
    requires Configured(cfg) && StepInRange(cfg, s) && Legal(cfg, s, op)
    ensures StepInRange(cfg, out.state)
  {
    match op
    case SwitchTo(r) => Switch(cfg, s, r)
    case Tick(r) => Check(cfg, s, r)
    case Init => Outcome(StatusInit(s), 0, [])
  }

  // The calls `ops` can be made, in this order, from INITIAL.
  predicate Session(cfg: Config, ops: seq<Op>)
    requires Configured(cfg)
    decreases |ops|, 0
  {
    |ops| == 0 ||
    var k := |ops| - 1;
    Session(cfg, ops[..k]) && Legal(cfg, Run(cfg, ops[..k]), ops[k])
  }

  function Run(cfg: Config, ops: seq<Op>): (s: State)
    requires Configured(cfg) && Session(cfg, ops)
    ensures StepInRange(cfg, s)
    decreases |ops|, 1
  {
    if |ops| == 0 then INITIAL else Apply(cfg, Run(cfg, ops[..|ops| - 1]), ops[|ops| - 1]).state
  }

  lemma OneMoreCall(cfg: Config, ops: seq<Op>, op: Op)
    requires Configured(cfg) && Session(cfg, ops) && Legal(cfg, Run(cfg, ops), op)
    ensures Session(cfg, ops + [op])
    ensures Run(cfg, ops + [op]) == Apply(cfg, Run(cfg, ops), op).state
  {
    assert (ops + [op])[..|ops|] == ops;
  }

  // --------------------------------------------------- the output-disable vote

  // The last of `votes` on the output-disable votable, or what was voted before.
  function OutVote(on: bool, votes: seq<PowerVote>): bool {
    if |votes| == 0 then on
    else if votes[|votes| - 1].OutDisable? then votes[|votes| - 1].on
    else OutVote(on, votes[..|votes| - 1])
  }

  // The seventh idle tick finds no way to withdraw the vote: a wired charger is present,
  // or wireless charging is gone, or the votable is.
  predicate LeavesDisabled(s: State, r: Reading) {
    s.status == IDLE && s.fccCount >= 6 && (!Wireless(r) || !r.outDisable)
  }

  // A tick withdraws the vote unless it leaves the output disabled; the switch never does,
  // so that it must not be called in the idle phase.
  predicate KeepsBalance(s: State, op: Op) {
    match op
    case SwitchTo(_) => s.status != IDLE
    case Tick(r) => !LeavesDisabled(s, r)
    case Init => true
  }

  // On a fast tick the votable is voted on only to start the idle phase.
  lemma FastTickDisables(cfg: Config, s: State, r: Reading)
    requires Configured(cfg) && StepInRange(cfg, s) && s.status.FAST? && Defined(s, r)
    ensures var out := CheckFast(cfg, s, r);
            && (forall v :: v in out.votes && v.OutDisable? ==> v.on)
            && (out.state.status == IDLE <==> OutDisable(true) in out.votes)
  {
  }

  lemma OutVoteOfFastTick(cfg: Config, s: State, r: Reading, on: bool)
    requires Configured(cfg) && StepInRange(cfg, s) && s.status.FAST? && Defined(s, r)
    ensures var out := CheckFast(cfg, s, r);
            OutVote(on, out.votes) == (out.state.status == IDLE || on)
  {
    FastTickDisables(cfg, s, r);
    VotesDisable(on, CheckFast(cfg, s, r).votes);
  }

  lemma VotesDisable(on: bool, votes: seq<PowerVote>)
    requires forall v :: v in votes && v.OutDisable? ==> v.on
    ensures OutVote(on, votes) == (OutDisable(true) in votes || on)
  {
    OutVoteOfPower(on, votes);
    if v :| v in votes && v.OutDisable? {
      assert v == OutDisable(true);
    }
  }

  lemma OutVoteOfCall(cfg: Config, s: State, op: Op, on: bool)
    requires Configured(cfg) && StepInRange(cfg, s) && Legal(cfg, s, op)
    ensures var out := Apply(cfg, s, op);
            OutVote(on, out.votes) ==
            if s.status.FAST? && out.state.status == IDLE then true
            else if op.Tick? && s.status == IDLE && out.state.status == DEFAULT && !LeavesDisabled(s, op.r) then false
            else on
  {
    if !op.Tick? {
      OutVoteOfPower(on, Apply(cfg, s, op).votes);
    } else if s.status.FAST? {
      OutVoteOfFastTick(cfg, s, op.r, on);
    }
  }

  lemma {:induction false} OutVoteOfPower(on: bool, votes: seq<PowerVote>)
    ensures (forall v :: v in votes ==> !v.OutDisable?) ==> OutVote(on, votes) == on
    ensures (exists v :: v in votes && v.OutDisable?) && (forall v :: v in votes && v.OutDisable? ==> v.on) ==>
              OutVote(on, votes)
  {
    if |votes| > 0 {
      var k := |votes| - 1;
      assert forall v :: v in votes[..k] ==> v in votes;
      assert votes[k] in votes;
      assert forall v :: v in votes ==> v in votes[..k] || v == votes[k];
      OutVoteOfPower(on, votes[..k]);
    }
  }

  lemma DisabledExactlyWhileIdle(cfg: Config, s: State, op: Op, on: bool)
    requires Configured(cfg) && StepInRange(cfg, s) && Legal(cfg, s, op)
    requires on <==> s.status == IDLE
    ensures var out := Apply(cfg, s, op);
            (OutVote(on, out.votes) <==> out.state.status == IDLE) <==> KeepsBalance(s, op)
  {
    OutVoteOfCall(cfg, s, op, on);
  }

  // The vote in force after a session.
  function OutAfter(cfg: Config, ops: seq<Op>): bool
    requires Configured(cfg) && Session(cfg, ops)
  {
    |ops| > 0 &&
    var k := |ops| - 1;
    OutVote(OutAfter(cfg, ops[..k]), Apply(cfg, Run(cfg, ops[..k]), ops[k]).votes)
  }

  predicate Balanced(cfg: Config, ops: seq<Op>)
    requires Configured(cfg) && Session(cfg, ops)
  {
    OutAfter(cfg, ops) <==> Run(cfg, ops).status == IDLE
  }

  predicate AllKeepBalance(cfg: Config, ops: seq<Op>)
    requires Configured(cfg) && Session(cfg, ops)
  {
    |ops| == 0 ||
    var k := |ops| - 1;
    AllKeepBalance(cfg, ops[..k]) && KeepsBalance(Run(cfg, ops[..k]), ops[k])
  }

  // The output has been disabled by FFC exactly during the idle phase, at every point of a
  // session so far.
  predicate AlwaysBalanced(cfg: Config, ops: seq<Op>)
    requires Configured(cfg) && Session(cfg, ops)
  {
    Balanced(cfg, ops) && (|ops| > 0 ==> AlwaysBalanced(cfg, ops[..|ops| - 1]))
  }

  // That is so if and only if every call of the session keeps the balance.
  lemma {:induction false} SessionIsBalanced(cfg: Config, ops: seq<Op>)
    requires Configured(cfg) && Session(cfg, ops)
    ensures AlwaysBalanced(cfg, ops) <==> AllKeepBalance(cfg, ops)
  {
    if |ops| > 0 {
      var k := |ops| - 1;
      SessionIsBalanced(cfg, ops[..k]);
      if AlwaysBalanced(cfg, ops[..k]) {
        DisabledExactlyWhileIdle(cfg, Run(cfg, ops[..k]), ops[k], OutAfter(cfg, ops[..k]));
      }
    }
  }

  // ------------------------------------------------------- the requested charge

  // The last votes on the current, the charge current and the float voltage.
  datatype Request = Request(iclMa: int, fccMa: int, fvMv: int)

  function InForce(q: Request, votes: seq<PowerVote>): Request {
    if |votes| == 0 then q
    else
      var before := InForce(q, votes[..|votes| - 1]);
      match votes[|votes| - 1]
      case Icl(ma) => before.(iclMa := ma)
      case Fcc(ma) => before.(fccMa := ma)
      case Fv(mv) => before.(fvMv := mv)
      case OutDisable(_) => before
  }

  lemma LastThree(q: Request, votes: seq<PowerVote>, icl: int, fv: int, fcc: int)
    requires |votes| >= 3 && votes[|votes| - 3..] == [Icl(icl), Fv(fv), Fcc(fcc)]
    ensures InForce(q, votes) == Request(icl, fcc, fv)
  {
    var k := |votes|;
    assert votes[k - 1] == Fcc(fcc) && votes[k - 2] == Fv(fv) && votes[k - 3] == Icl(icl);
    assert votes[..k - 1][..k - 2] == votes[..k - 2] && votes[..k - 2][..k - 3] == votes[..k - 3];
    var r3 := InForce(q, votes[..k - 3]);
    assert InForce(q, votes[..k - 2]) == r3.(iclMa := icl);
    assert InForce(q, votes[..k - 1]) == r3.(iclMa := icl, fvMv := fv);
  }

  // The entries of the three tables for a step and a region.
  function TableRequest(cfg: Config, step: int, region: nat, decCv: int): Request
    requires cfg.Shaped() && 0 <= step < FFC_CHG_STEP_MAX && Allowed(region)
  {
    Request(cfg.wlsFfcIclMa[step][region - 1], cfg.wlsFfcFccMa[step][region - 1], cfg.wlsFfcFvMv[step] - decCv)
  }

  lemma SwitchRequestsFirstStep(cfg: Config, s: State, r: Reading, q: Request)
    requires Configured(cfg) && Switch(cfg, s, r).rc == 0
    ensures InForce(q, Switch(cfg, s, r).votes) == TableRequest(cfg, 0, r.region, 0)
  {
    var t := TableRequest(cfg, 0, r.region, 0);
    LastThree(q, Switch(cfg, s, r).votes, t.iclMa, t.fvMv, t.fccMa);
  }

  lemma FastVotes(cfg: Config, s: State, r: Reading)
    requires Configured(cfg) && StepInRange(cfg, s) && s.status.FAST? && Defined(s, r)
    requires CheckFast(cfg, s, r).state.status.FAST?
    ensures Allowed(r.region) && 0 <= CheckFast(cfg, s, r).state.step < FFC_CHG_STEP_MAX
    ensures var out := CheckFast(cfg, s, r); var t := TableRequest(cfg, out.state.step, r.region, r.decCv);
            |out.votes| >= 3 && out.votes[|out.votes| - 3..] == [Icl(t.iclMa), Fv(t.fvMv), Fcc(t.fccMa)]
  {
  }

  lemma RequestFollowsStep(cfg: Config, s: State, r: Reading, q: Request)
    requires Configured(cfg) && StepInRange(cfg, s) && Defined(s, r)
    requires Check(cfg, s, r).state.status.FAST?
    ensures Allowed(r.region) && 0 <= Check(cfg, s, r).state.step < FFC_CHG_STEP_MAX
    ensures InForce(q, Check(cfg, s, r).votes) == TableRequest(cfg, Check(cfg, s, r).state.step, r.region, r.decCv)
  {
    FastVotes(cfg, s, r);
    var out := CheckFast(cfg, s, r);
    var t := TableRequest(cfg, out.state.step, r.region, r.decCv);
    LastThree(q, out.votes, t.iclMa, t.fvMv, t.fccMa);
  }

  // A tick that ends the fast phase does not request a new step: the float voltage becomes
  // that of the battery region, and the currents are those of the old step, in the new
  // region if it has just changed.
  lemma IdleRequest(cfg: Config, s: State, r: Reading, q: Request)
    requires Configured(cfg) && StepInRange(cfg, s) && s.status.FAST? && Defined(s, r)
    requires Check(cfg, s, r).state.status.IDLE?
    ensures 1 <= r.region <= 2
    ensures InForce(q, Check(cfg, s, r).votes) ==
            Request(if r.region != s.preRegion then cfg.wlsFfcIclMa[s.step][r.region - 1] else q.iclMa,
                    if r.region != s.preRegion then cfg.wlsFfcFccMa[s.step][r.region - 1] else q.fccMa,
                    if r.fv then cfg.vbatmaxMv[r.battRegion] - r.decCv else q.fvMv)
  {
    var votes := Check(cfg, s, r).votes;
    var first := if r.region != s.preRegion then [Icl(IclMa(cfg, s.step, r.region)), Fcc(FccMa(cfg, s.step, r.region))] else [];
    var last := if r.fv then [Fv(cfg.vbatmaxMv[r.battRegion] - r.decCv)] else [];
    assert votes == first + [OutDisable(true)] + last;
    InForceOfParts(q, first + [OutDisable(true)], last);
    InForceOfParts(q, first, [OutDisable(true)]);
    InForceOfPair(q, first);
    InForceOfPair(InForce(q, first), [OutDisable(true)]);
    InForceOfPair(InForce(q, first), last);
  }

  lemma {:induction false} InForceOfParts(q: Request, a: seq<PowerVote>, b: seq<PowerVote>)
    ensures InForce(q, a + b) == InForce(InForce(q, a), b)
  {
    if |b| == 0 {
      assert a + b == a;
    } else {
      InForceOfParts(q, a, b[..|b| - 1]);
      assert (a + b)[..|a + b| - 1] == a + b[..|b| - 1];
    }
  }

  lemma InForceOfPair(q: Request, votes: seq<PowerVote>)
    requires |votes| <= 2
    ensures |votes| == 0 ==> InForce(q, votes) == q
    ensures |votes| == 1 ==> InForce(q, votes) == InForce(q, [votes[0]])
    ensures |votes| == 2 && votes[0].Icl? && votes[1].Fcc? ==> InForce(q, votes) == q.(iclMa := votes[0].ma, fccMa := votes[1].ma)
    ensures |votes| == 1 && votes[0].Fv? ==> InForce(q, votes) == q.(fvMv := votes[0].mv)
    ensures |votes| == 1 && votes[0].OutDisable? ==> InForce(q, votes) == q
  {
    if |votes| == 1 {
      assert votes == [votes[0]];
    }
    if |votes| == 2 {
      assert votes[..1][..0] == [];
    }
  }

  // The request in force after a session.
  function RequestAfter(cfg: Config, q: Request, ops: seq<Op>): Request
    requires Configured(cfg) && Session(cfg, ops)
  {
    if |ops| == 0 then q
    else
      var k := |ops| - 1;
      InForce(RequestAfter(cfg, q, ops[..k]), Apply(cfg, Run(cfg, ops[..k]), ops[k]).votes)
  }

  // How many operations of a session there were when one of the two functions was last
  // called; only status inits have followed.
  function LastCall(ops: seq<Op>): (j: nat)
    ensures j <= |ops|
    ensures j > 0 ==> !ops[j - 1].Init?
  {
    if |ops| == 0 || !ops[|ops| - 1].Init? then |ops| else LastCall(ops[..|ops| - 1])
  }

  lemma LastCallBefore(ops: seq<Op>)
    requires |ops| > 0 && !ops[|ops| - 1].Init?
    ensures LastCall(ops + [Init]) == |ops|
  {
    assert (ops + [Init])[..|ops|] == ops;
  }

  // A status init casts no vote.
  lemma {:induction false} InitsKeepRequest(cfg: Config, q: Request, ops: seq<Op>)
    requires Configured(cfg) && Session(cfg, ops)
    ensures var j := LastCall(ops);
            && Session(cfg, ops[..j])
            && RequestAfter(cfg, q, ops) == RequestAfter(cfg, q, ops[..j])
            && Run(cfg, ops) == if j == |ops| then Run(cfg, ops[..j]) else StatusInit(Run(cfg, ops[..j]))
  {
    if LastCall(ops) == |ops| {
      assert ops[..|ops|] == ops;
    } else {
      var k := |ops| - 1;
      InitsKeepRequest(cfg, q, ops[..k]);
      assert ops[..k][..LastCall(ops)] == ops[..LastCall(ops)];
    }
  }

  // Whatever was requested before: right after a call that leaves the fast phase running,
  // the request in force is that of the step, in the region just read. (The switch does
  // not subtract the ageing offset from the voltage.)
  lemma CallRequestsStep(cfg: Config, q: Request, ops: seq<Op>)
    requires Configured(cfg) && Session(cfg, ops) && Run(cfg, ops).status.FAST?
    requires |ops| > 0 && !ops[|ops| - 1].Init?
    ensures var op := ops[|ops| - 1];
            && Allowed(op.r.region)
            && RequestAfter(cfg, q, ops) == TableRequest(cfg, Run(cfg, ops).step, op.r.region, Offset(op))
  {
    var k := |ops| - 1;
    var s, q0 := Run(cfg, ops[..k]), RequestAfter(cfg, q, ops[..k]);
    match ops[k]
    case SwitchTo(r) => SwitchRequestsFirstStep(cfg, s, r, q0);
    case Tick(r) => RequestFollowsStep(cfg, s, r, q0);
  }

  function Offset(op: Op): int {
    if op.Tick? then op.r.decCv else 0
  }

  // While a session is in its fast phase, the request in force is that of the step at the
  // last call, in the region read then. It is that of the current step if and only if the
  // status has not been initialised since, or the step was one whose request is that of
  // the first.
  lemma SessionRequestsStep(cfg: Config, q: Request, ops: seq<Op>)
    requires Configured(cfg) && Session(cfg, ops) && Run(cfg, ops).status.FAST?
    ensures var j := LastCall(ops);
            && 0 < j && Session(cfg, ops[..j])
            && Run(cfg, ops[..j]).status.FAST? && Allowed(ops[j - 1].r.region)
            && var region, offset, step := ops[j - 1].r.region, Offset(ops[j - 1]), Run(cfg, ops[..j]).step;
               && RequestAfter(cfg, q, ops) == TableRequest(cfg, step, region, offset)
               && (RequestAfter(cfg, q, ops) == TableRequest(cfg, Run(cfg, ops).step, region, offset) <==>
                   j == |ops| || TableRequest(cfg, step, region, 0) == TableRequest(cfg, 0, region, 0))
  {
    InitsKeepRequest(cfg, q, ops);
    CallRequestsStep(cfg, q, ops[..LastCall(ops)]);
  }

  // A steady reading with the voltage below the cutoff of the first step, and the current
  // below its cutoff too.
  predicate LowCurrent(cfg: Config, r: Reading)
    requires Configured(cfg)
  {
    && Steady(r) && Allowed(r.region)
    && r.vbatMv < cfg.wlsFfcFvCutoffMv[0] - r.decCv && Abs(r.ibatMa) < cfg.wlsFfcFccCutoffMa[0][r.region - 1]
  }

  function LowSession(r: Reading, n: nat): seq<Op> {
    if n == 0 then [SwitchTo(r)] else LowSession(r, n - 1) + [Tick(r)]
  }

  // Three such ticks are counted, and the fourth advances the step.
  lemma LowTick(cfg: Config, s: State, r: Reading)
    requires Configured(cfg) && LowCurrent(cfg, r)
    requires s.status.FAST? && s.step == 0 && s.fvCount == 0 && 0 <= s.fccCount <= 3
    ensures Defined(s, r)
    ensures var s' := Check(cfg, s, r).state;
            if s.fccCount < 3 then s' == s.(fccCount := s.fccCount + 1, preRegion := r.region)
            else if cfg.wlsFfcStepMax == 1 then s' == s.(status := IDLE, step := 1, fccCount := 0, preRegion := r.region)
            else s' == s.(step := 1, fccCount := 4, preRegion := r.region)
  {
  }

  lemma {:induction false} LowSessionCounts(cfg: Config, r: Reading, n: nat)
    requires Configured(cfg) && LowCurrent(cfg, r) && n <= 3
    ensures Session(cfg, LowSession(r, n))
    ensures Run(cfg, LowSession(r, n)) == State(FAST, 0, n, 0, true, if n == 0 then FFC_TEMP_NORMAL else r.region)
  {
    if n == 0 {
      assert [] + [SwitchTo(r)] == [SwitchTo(r)];
      OneMoreCall(cfg, [], SwitchTo(r));
    } else {
      LowSessionCounts(cfg, r, n - 1);
      LowTick(cfg, Run(cfg, LowSession(r, n - 1)), r);
      OneMoreCall(cfg, LowSession(r, n - 1), Tick(r));
    }
  }

  // So a status init in the second step leaves a request in force that is not that of the
  // current step, if the two steps request different currents.
  lemma InitLeavesOldRequest(cfg: Config, q: Request, r: Reading)
    requires Configured(cfg) && cfg.wlsFfcStepMax >= 2 && LowCurrent(cfg, r)
    requires cfg.wlsFfcIclMa[1][r.region - 1] != cfg.wlsFfcIclMa[0][r.region - 1]
    ensures var ops := LowSession(r, 4) + [Init];
            && Session(cfg, ops) && Run(cfg, ops).status.FAST?
            && RequestAfter(cfg, q, ops) != TableRequest(cfg, Run(cfg, ops).step, r.region, r.decCv)
  {
    var low := LowSession(r, 4);
    LowSessionCounts(cfg, r, 3);
    LowTick(cfg, Run(cfg, LowSession(r, 3)), r);
    OneMoreCall(cfg, LowSession(r, 3), Tick(r));
    OneMoreCall(cfg, low, Init);
    LastCallBefore(low);
    assert (low + [Init])[..|low|] == low;
    SessionRequestsStep(cfg, q, low + [Init]);
  }

  // ------------------------------------------------------- the charging flag

  // The status has been initialised since the last switch.
  predicate InitSinceSwitch(ops: seq<Op>) {
    |ops| > 0 && (ops[|ops| - 1].Init? || (ops[|ops| - 1].Tick? && InitSinceSwitch(ops[..|ops| - 1])))
  }

  // Over any session the charging flag is set exactly in the two phases, as long as no
  // status init has cleared it.
  lemma {:induction false} ChargingIsPhase(cfg: Config, ops: seq<Op>)
    requires Configured(cfg) && Session(cfg, ops)
    ensures Run(cfg, ops).charging <==> Run(cfg, ops).status != DEFAULT && !InitSinceSwitch(ops)
  {
    if |ops| > 0 {
      ChargingIsPhase(cfg, ops[..|ops| - 1]);
      CallKeepsCharging(cfg, Run(cfg, ops[..|ops| - 1]), ops[|ops| - 1]);
    }
  }

  lemma CallKeepsCharging(cfg: Config, s: State, op: Op)
    requires Configured(cfg) && StepInRange(cfg, s) && Legal(cfg, s, op)
    ensures var r := Apply(cfg, s, op).state;
            match op
            case SwitchTo(_) => r.charging <==> r.status != DEFAULT
            case Tick(_) => (r.status == DEFAULT ==> !r.charging) && (r.status != DEFAULT ==> s.status != DEFAULT && r.charging == s.charging)
            case Init => !r.charging && r.status == s.status
  {
  }

  // ------------------------------------------------------- the temperature guard

  // The region of the last fast tick of a session, in whichever phase it was; before the
  // first one, the initial value of the static.
  function LastFast(cfg: Config, ops: seq<Op>): nat
    requires Configured(cfg) && Session(cfg, ops)
  {
    if |ops| == 0 then FFC_TEMP_NORMAL
    else
      var k := |ops| - 1;
      if ops[k].Tick? && Run(cfg, ops[..k]).status.FAST? then ops[k].r.region else LastFast(cfg, ops[..k])
  }

  lemma {:induction false} StaticIsLastFast(cfg: Config, ops: seq<Op>)
    requires Configured(cfg) && Session(cfg, ops)
    ensures Run(cfg, ops).preRegion == LastFast(cfg, ops)
  {
    if |ops| > 0 {
      StaticIsLastFast(cfg, ops[..|ops| - 1]);
    }
  }

  // In any session a fast tick in a disallowed region stays within the tables if and only
  // if no wireless charge is active or its region differs from that of the last fast tick
  // of any phase; and then it ends the phase and casts no vote.
  lemma GuardCatchesIffMoved(cfg: Config, ops: seq<Op>, r: Reading)
    requires Configured(cfg) && Session(cfg, ops) && Run(cfg, ops).status.FAST?
    requires !Allowed(r.region) && r.battRegion <= BATT_TEMP_HOT
    ensures Session(cfg, ops + [Tick(r)]) <==> !Wireless(r) || r.region != LastFast(cfg, ops)
    ensures Session(cfg, ops + [Tick(r)]) ==>
              Run(cfg, ops + [Tick(r)]).status == DEFAULT && Check(cfg, Run(cfg, ops), r).votes == []
  {
    StaticIsLastFast(cfg, ops);
    assert (ops + [Tick(r)])[..|ops|] == ops;
  }

  // So a second phase that turns warm at once, after one that the warm region ended, is
  // not caught.
  lemma SecondWarmPhaseIsMissed(cfg: Config, good: Reading, warm: Reading)
    requires Configured(cfg) && Steady(good) && good.region == FFC_TEMP_NORMAL
    requires Steady(warm) && warm.region == FFC_TEMP_WARM
    ensures var ops := [SwitchTo(good), Tick(warm), SwitchTo(good)];
            Session(cfg, ops) && Run(cfg, ops).status.FAST? && !Session(cfg, ops + [Tick(warm)])
  {
    var ops := [SwitchTo(good), Tick(warm), SwitchTo(good)];
    assert ops[..1] == [SwitchTo(good)] && ops[..1][..0] == [] && ops[..2][..1] == ops[..1];
    assert Session(cfg, ops[..1]) && Run(cfg, ops[..1]).status.FAST?;
    assert Session(cfg, ops[..2]) && Run(cfg, ops[..2]).status == DEFAULT;
    assert Session(cfg, ops) && LastFast(cfg, ops[..2]) == FFC_TEMP_WARM;
    GuardCatchesIffMoved(cfg, ops, warm);
  }

  class FfcMachine {
    const cfg: Config
    var status: Status
    var step: int
    var fccCount: int
    var fvCount: int
    var charging: bool
    var preRegion: nat

    function View(): State
      reads this
    {
      State(status, step, fccCount, fvCount, charging, preRegion)
    }

    constructor (cfg: Config)
      ensures this.cfg == cfg && View() == INITIAL
    {
      this.cfg := cfg;
      status, step, fccCount, fvCount, charging, preRegion := DEFAULT, 0, 0, 0, false, FFC_TEMP_NORMAL;
    }

    method Quit(rc: int32, votes: seq<PowerVote>) returns (rc': int32, votes': seq<PowerVote>)
      modifies this
      ensures View() == Stop(old(View())) && rc' == rc && votes' == votes
    {
      charging, fccCount, fvCount, status := false, 0, 0, DEFAULT;
      return rc, votes;
    }

    // The part of oplus_chg_comm_status_init that concerns the machine.
    method InitStatus()
      modifies this
      ensures View() == StatusInit(old(View()))
    {
      charging := false;
      step := 0;
    }

    method SwitchFfc(r: Reading) returns (rc: int32, votes: seq<PowerVote>)
      requires Configured(cfg)
      modifies this
      ensures Outcome(View(), rc, votes) == Switch(cfg, old(View()), r)
      ensures StepInRange(cfg, View())
    {
      step := 0;
      if r.region != FFC_TEMP_PRE_NORMAL && r.region != FFC_TEMP_NORMAL {
        rc, votes := Quit(-EINVAL, []);
        return;
      }
      if r.usbOnline || !r.wlsOnline {
        rc, votes := Quit(-EINVAL, []);
        return;
      }
      if !r.icl || !r.fcc || !r.fv || !r.outDisable {
        rc, votes := Quit(-ENODEV, []);
        return;
      }
      votes := [Icl(cfg.wlsFfcIclMa[step][r.region - 1]), Fv(cfg.wlsFfcFvMv[step]), Fcc(cfg.wlsFfcFccMa[step][r.region - 1])];
      fccCount, fvCount, charging, status := 0, 0, true, FAST;
      rc := 0;
    }

    method CheckFfc(r: Reading) returns (rc: int32, votes: seq<PowerVote>)
      requires Configured(cfg) && StepInRange(cfg, View()) && Defined(View(), r)
      modifies this
      ensures Outcome(View(), rc, votes) == Check(cfg, old(View()), r)
      ensures StepInRange(cfg, View())
    {
      rc, votes := 0, [];
      if status == DEFAULT {
        fccCount, fvCount, charging, step := 0, 0, false, 0;
        return -EINVAL, [];
      }
      if status == FAST {
        rc, votes := CheckFastPhase(r);
      } else {
        fccCount := fccCount + 1;
        if fccCount > 6 {
          charging, fccCount, fvCount := false, 0, 0;
          if r.usbOnline {
            rc, votes := Quit(-EINVAL, []);
            return;
          } else if r.wlsOnline {
            if !r.outDisable {
              rc, votes := Quit(-ENODEV, []);
              return;
            }
            votes := [OutDisable(false)];
          }
          status, rc := DEFAULT, 1;
        }
      }
    }

    method AdvanceStep(r: Reading)
      requires Configured(cfg) && StepInRange(cfg, View()) && status.FAST? && Allowed(r.region)
      modifies this`step, this`fvCount, this`fccCount
      ensures View() == Advance(cfg, old(View()), r)
    {
      var fvMaxMv := cfg.wlsFfcFvCutoffMv[step] - r.decCv;
      var cutoffMa := cfg.wlsFfcFccCutoffMa[step][r.region - 1];
      if r.vbatMv >= fvMaxMv {
        fvCount := fvCount + 1;
      }
      if fvCount > 5 {
        step, fvCount := step + 1, 0;
      }
      if Abs(r.ibatMa) < cutoffMa {
        fccCount := fccCount + 1;
      } else {
        fccCount := 0;
      }
      if fccCount > 3 {
        step, fvCount := step + 1, 0;
      }
    }

    method CheckFastPhase(r: Reading) returns (rc: int32, votes: seq<PowerVote>)
      requires Configured(cfg) && StepInRange(cfg, View()) && status.FAST? && Defined(View(), r)
      modifies this
      ensures Outcome(View(), rc, votes) == CheckFast(cfg, old(View()), r)
    {
      rc, votes := 0, [];
      if preRegion != r.region {
        preRegion := r.region;
        if r.region != FFC_TEMP_PRE_NORMAL && r.region != FFC_TEMP_NORMAL {
          rc, votes := Quit(0, []);
          return;
        }
        if r.usbOnline || !r.wlsOnline {
          rc, votes := Quit(-EINVAL, []);
          return;
        }
        if !r.icl || !r.fcc {
          rc, votes := Quit(-ENODEV, []);
          return;
        }
        votes := [Icl(cfg.wlsFfcIclMa[step][r.region - 1]), Fcc(cfg.wlsFfcFccMa[step][r.region - 1])];
      }
      if r.usbOnline || !r.wlsOnline {
        rc, votes := Quit(-EINVAL, votes);
        return;
      }
      AdvanceStep(r);
      if step >= cfg.wlsFfcStepMax {
        if !r.outDisable {
          rc, votes := Quit(-ENODEV, votes);
          return;
        }
        votes := votes + [OutDisable(true)];
        fccCount, fvCount, status := 0, 0, IDLE;
        votes := votes + if r.fv then [Fv(cfg.vbatmaxMv[r.battRegion] - r.decCv)] else [];
      } else {
        if !r.icl || !r.fcc || !r.fv {
          rc, votes := Quit(-ENODEV, votes);
          return;
        }
        votes := votes + [Icl(cfg.wlsFfcIclMa[step][r.region - 1]), Fv(cfg.wlsFfcFvMv[step] - r.decCv),
                          Fcc(cfg.wlsFfcFccMa[step][r.region - 1])];
      }
    }
  }
}
