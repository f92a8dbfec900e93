// The effective result and client as functions of the history alone, under overrides and
// the debug force.
module VoterEffective {
  import opened Common
  import opened Voter
  import opened VoterRefinement
  import opened VoterCallback

  // The word that was set last.
  function WordAfter(ops: seq<Op>): uint32 {
    if |ops| == 0 then 0
    else if ops[|ops| - 1].SetForceVal? then ops[|ops| - 1].u
    else WordAfter(ops[..|ops| - 1])
  }

  // The value of the last override: under force it is stored unseen; otherwise it must be
  // accepted by the callback. Withdrawing it always works.
  function OverrideAfter(ops: seq<Op>): int32 {
    if |ops| == 0 then -EINVAL
    else
      var k := |ops| - 1;
      if ops[k].Override? && !ops[k].enabled then -EINVAL
      else if ops[k].Override? && (ForcedAfter(false, ops[..k]) || ops[k].rc == 0) then ops[k].val
      else OverrideAfter(ops[..k])
  }

  // The client that is remembered with it, which is not replaced under force.
  function OverriderAfter(ops: seq<Op>): Option<Name> {
    if |ops| == 0 then None
    else
      var k := |ops| - 1;
      if ops[k].Override? && ops[k].enabled && !ForcedAfter(false, ops[..k]) && ops[k].rc == 0 then Some(ops[k].client)
      else OverriderAfter(ops[..k])
  }

  lemma StepKeepsStanding(s: VotableState, op: Op)
    requires Callable(s, op)
    ensures var r := Apply(s, op).state;
            && (!op.Force? ==> r.forceActive == s.forceActive)
            && (!op.SetForceVal? ==> r.forceVal == s.forceVal)
            && (!op.Override? ==> r.overrideResult == s.overrideResult && r.overrideClient == s.overrideClient)
  {
  }

  lemma {:induction false} StandingIsHistory(kind: VotableType, ops: seq<Op>)
    ensures var s := Run(Created(kind, true), ops);
            && s.forceActive == ForcedAfter(false, ops) && s.forceVal == WordAfter(ops)
            && s.overrideResult == OverrideAfter(ops) && s.overrideClient == OverriderAfter(ops)
  {
    if |ops| > 0 {
      var k := |ops| - 1;
      StandingIsHistory(kind, ops[..k]);
      StepKeepsStanding(Run(Created(kind, true), ops[..k]), ops[k]);
    }
  }

  // The word under force is read as a signed number.
  function Signed(u: uint32): int {
    if u < 0x8000_0000 then u else u - 0x1_0000_0000
  }

  // After any history: under force the result is the forced word, else the override if
  // one stands, else the election over the last votes, whatever has come between.
  lemma EffectiveIsHistory(kind: VotableType, ops: seq<Op>)
    ensures var r := EffectiveResult(Run(Created(kind, true), ops));
            if ForcedAfter(false, ops) then r == Signed(WordAfter(ops))
            else if OverrideAfter(ops) != -EINVAL then r == OverrideAfter(ops)
            else IsElected(kind, BallotRun(kind, ops), r)
  {
    StandingIsHistory(kind, ops);
    HistoryRefines(kind, true, ops);
  }

  // And so for the client. An override made under force is reported, once the force is
  // gone, in the name of the last one that was not.
  lemma EffectiveClientIsHistory(kind: VotableType, ops: seq<Op>)
    requires ForcedAfter(false, ops) || OverrideAfter(ops) != -EINVAL
    ensures EffectiveClient(Run(Created(kind, true), ops)) ==
            if ForcedAfter(false, ops) then Some(DEBUG_FORCE_CLIENT) else OverriderAfter(ops)
  {
    StandingIsHistory(kind, ops);
  }

  // The callback is invoked by every rerun and every force, by an override unless the
  // votable is forced, and by a vote that is the first or changes the result unless an
  // override or a force hides it.
  lemma CallsExactly(s: VotableState, op: Op)
    requires Callable(s, op)
    ensures var out := Apply(s, op); var r := out.state;
            out.call.Some? <==>
            match op
            case Rerun(_, _) => s.hasCallback
            case Force(_, _) => s.hasCallback
            case Override(_, _, _, _, _) => !s.forceActive
            case Vote(_, _, _, _, _) =>
              && s.hasCallback && !s.forceActive && s.overrideResult == -EINVAL
              && ((r.votedOn && !s.votedOn) || r.effResult != s.effResult)
            case _ => false
  {
  }

  // It is called with the `step` of its operation, which is false for a force,
  // and the operation returns what the callback does. Without a call it returns 0, or
  // -EINVAL to the 33rd client.
  lemma CallsAndCodes(s: VotableState, op: Op)
    requires Callable(s, op)
    ensures var out := Apply(s, op);
            match out.call
            case None => out.rc == if op.Vote? && ClientId(s.table.names, op.name) == -EINVAL then -EINVAL else 0
            case Some(call) =>
              match op
              case Vote(_, _, _, step, rc) => call.step == step && out.rc == rc
              case Override(_, _, _, step, rc) => call.step == step && out.rc == rc
              case Rerun(step, rc) => call.step == step && out.rc == rc
              case Force(_, rc) => !call.step && out.rc == rc
              case _ => false
  {
  }

  // A vote that changes the result of a SET_ANY votable, or is its first, records its
  // client; no other vote does.
  lemma AnyVoterIsRecorded(s: VotableState, name: Name, enabled: bool, val: int32, step: bool, rc: int32)
    requires Shaped(s) && s.kind.VoteSetAny? && ClientId(s.table.names, name) != -EINVAL
    ensures var r := ApplyVote(s, name, enabled, val, step, rc).state;
            && r.effId == (if !s.votedOn || r.effResult != s.effResult then ClientId(s.table.names, name) else s.effId)
            && r.table.names[ClientId(s.table.names, name)] == name && r.votedOn
  {
    RegisterEffect(s.table, name);
  }
}
