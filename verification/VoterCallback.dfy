// The callback protocol of the votable: what the callback was last told is what the
// votable reports, over every interleaving of its operations.
module VoterCallback {
  import opened Common
  import opened Voter

  // What the callback heard last, if it was invoked at all.
  function Heard(last: Option<int32>, call: Option<Call>): Option<int32> {
    if call.Some? then Some(call.value.result) else last
  }

  ghost predicate InSync(s: VotableState, last: Option<int32>) {
    last.None? || last.value == EffectiveResult(s)
  }

  // The operations that keep the callback informed. Two kinds do not: an override whose
  // value the callback rejects, or that uses the value meaning "no override", and
  // rewriting the forced value, which is a plain debugfs word, while it is in force.
  predicate Benign(s: VotableState, op: Op) {
    match op
    case Override(_, enabled, val, _, rc) =>
      enabled && !s.forceActive ==>
        if rc != 0 then val == EffectiveResult(s)
        else val != -EINVAL || s.effResult == -EINVAL
    case SetForceVal(u) => s.forceActive ==> ToInt(u) == EffectiveResult(s)
    case _ => true
  }

  lemma VoteInSync(s: VotableState, op: Op, last: Option<int32>)
    requires op.Vote? && Shaped(s) && s.hasCallback && InSync(s, last)
    ensures var out := Apply(s, op); InSync(out.state, Heard(last, out.call))
  {
  }

  // Once the callback has been invoked, an operation keeps it in step with the
  // effective result exactly when the operation is benign.
  lemma StepInSync(s: VotableState, op: Op, last: Option<int32>)
    requires Shaped(s) && s.hasCallback && InSync(s, last)
    ensures var out := Apply(s, op);
            && (Benign(s, op) ==> InSync(out.state, Heard(last, out.call)))
            && (last.Some? && InSync(out.state, Heard(last, out.call)) ==> Benign(s, op))
  {
    if op.Vote? {
      VoteInSync(s, op, last);
    }
  }

  // The client named to the callback is the effective client, save for an override that
  // is rejected or has the value -EINVAL, and for a rerun while an override or the force
  // is on, which names the client that would be effective without them.
  lemma CallNamesEffectiveClient(s: VotableState, op: Op)
    requires Shaped(s) && s.hasCallback
    ensures var out := Apply(s, op);
            out.call.Some? && !(op.Override? && op.enabled && (op.rc != 0 || op.val == -EINVAL)) ==>
              out.call.value.client ==
              EffectiveClient(if op.Rerun? then s.(forceActive := false, overrideResult := -EINVAL) else out.state)
  {
  }

  // What the callback heard last over a history.
  function HeardLast(s: VotableState, ops: seq<Op>): Option<int32>
    requires Shaped(s) && s.hasCallback
  {
    if |ops| == 0 then None
    else
      var k := |ops| - 1;
      Heard(HeardLast(s, ops[..k]), Apply(Run(s, ops[..k]), ops[k]).call)
  }

  predicate AllBenign(s: VotableState, ops: seq<Op>)
    requires Shaped(s) && s.hasCallback
  {
    |ops| == 0 ||
    var k := |ops| - 1;
    AllBenign(s, ops[..k]) && Benign(Run(s, ops[..k]), ops[k])
  }

  // Over every history of benign operations, from any state, the value most recently
  // passed to the callback is the effective result.
  lemma {:induction false} HistoryInSync(s: VotableState, ops: seq<Op>)
    requires Shaped(s) && s.hasCallback && AllBenign(s, ops)
    ensures InSync(Run(s, ops), HeardLast(s, ops))
  {
    if |ops| > 0 {
      var k := |ops| - 1;
      HistoryInSync(s, ops[..k]);
      StepInSync(Run(s, ops[..k]), ops[k], HeardLast(s, ops[..k]));
    }
  }

  // The first operation of a history that is not benign puts the callback out of step.
  lemma FirstMishapIsHeard(s: VotableState, ops: seq<Op>, op: Op)
    requires Shaped(s) && s.hasCallback && AllBenign(s, ops)
    requires HeardLast(s, ops).Some? && !Benign(Run(s, ops), op)
    ensures !InSync(Run(s, ops + [op]), HeardLast(s, ops + [op]))
  {
    HistoryInSync(s, ops);
    assert (ops + [op])[..|ops|] == ops;
    StepInSync(Run(s, ops), op, HeardLast(s, ops));
  }

  // Whether the votable is forced after a history.
  function ForcedAfter(forced: bool, ops: seq<Op>): bool {
    if |ops| == 0 then forced
    else if ops[|ops| - 1].Force? then ops[|ops| - 1].active
    else ForcedAfter(forced, ops[..|ops| - 1])
  }

  // Conditions that clients can meet without looking at the votable: overrides that the
  // callback accepts and that are not -EINVAL, and a forced value that is written only
  // while it is not in force.
  predicate Polite(forced: bool, ops: seq<Op>) {
    |ops| == 0 ||
    var k := |ops| - 1;
    && Polite(forced, ops[..k])
    && (ops[k].Override? && ops[k].enabled ==> ops[k].rc == 0 && ops[k].val != -EINVAL)
    && (ops[k].SetForceVal? ==> !ForcedAfter(forced, ops[..k]))
  }

  lemma {:induction false} PoliteIsBenign(s: VotableState, ops: seq<Op>)
    requires Shaped(s) && s.hasCallback && Polite(s.forceActive, ops)
    ensures Run(s, ops).forceActive == ForcedAfter(s.forceActive, ops)
    ensures AllBenign(s, ops)
  {
    if |ops| > 0 {
      PoliteIsBenign(s, ops[..|ops| - 1]);
      KeepsForce(Run(s, ops[..|ops| - 1]), ops[|ops| - 1]);
    }
  }

  lemma KeepsForce(s: VotableState, op: Op)
    requires Shaped(s) && s.hasCallback
    ensures Apply(s, op).state.forceActive == if op.Force? then op.active else s.forceActive
  {
  }

  // So over every history of polite clients the callback knows the effective result.
  lemma PoliteHistoryInSync(s: VotableState, ops: seq<Op>)
    requires Shaped(s) && s.hasCallback && Polite(s.forceActive, ops)
    ensures InSync(Run(s, ops), HeardLast(s, ops))
  {
    PoliteIsBenign(s, ops);
    HistoryInSync(s, ops);
  }

  // ------------------------------------------------------------------ votes alone

  // The results passed to the callback over a history, in order.
  function Emitted(s: VotableState, ops: seq<Op>): seq<int32>
    requires Shaped(s) && s.hasCallback
  {
    if |ops| == 0 then []
    else
      var k := |ops| - 1;
      var call := Apply(Run(s, ops[..k]), ops[k]).call;
      Emitted(s, ops[..k]) + if call.Some? then [call.value.result] else []
  }

  // With votes and queries alone the callback hears the first result and then every
  // change, once: no two consecutive invocations carry the same value.
  lemma {:induction false} NoRepeatedCallback(kind: VotableType, ops: seq<Op>)
    requires forall op :: op in ops ==> op.Vote? || op.Query?
    ensures var s := Run(Created(kind, true), ops); var e := Emitted(Created(kind, true), ops);
            && (forall i :: 0 < i < |e| ==> e[i - 1] != e[i])
            && !s.forceActive && s.overrideResult == -EINVAL
            && (s.votedOn <==> |e| > 0)
            && (|e| > 0 ==> e[|e| - 1] == s.effResult)
  {
    if |ops| > 0 {
      var k := |ops| - 1;
      assert forall op :: op in ops[..k] ==> op in ops;
      assert ops[k] in ops;
      NoRepeatedCallback(kind, ops[..k]);
      var s := Run(Created(kind, true), ops[..k]);
      VoteEmits(s, ops[k]);
      var e := Emitted(Created(kind, true), ops[..k]);
      var call := Apply(s, ops[k]).call;
      assert Emitted(Created(kind, true), ops) == e + if call.Some? then [call.value.result] else [];
    }
  }

  lemma VoteEmits(s: VotableState, op: Op)
    requires Shaped(s) && s.hasCallback && !s.forceActive && s.overrideResult == -EINVAL
    requires op.Vote? || op.Query?
    ensures var out := Apply(s, op); var s' := out.state;
            && !s'.forceActive && s'.overrideResult == -EINVAL
            && (if out.call.Some?
                then s'.votedOn && out.call.value.result == s'.effResult && (s.votedOn ==> s'.effResult != s.effResult)
                else s'.votedOn == s.votedOn && s'.effResult == s.effResult)
  {
  }
}
