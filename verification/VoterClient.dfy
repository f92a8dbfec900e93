// The recorded effective client of a MIN or MAX votable. It is updated only when the
// result changes, and so can name a client that no longer votes the result.
module VoterClient {
  import opened Common
  import opened Voter
  import opened VoterRefinement

  // The recorded client casts the effective result, or there is none and nobody counts.
  ghost predicate Honest(s: VotableState)
    requires Shaped(s)
  {
    if s.effId == -EINVAL then forall i :: 0 <= i < |s.table.votes| ==> !Counted(s.kind, s.table.votes[i])
    else Counted(s.kind, s.table.votes[s.effId]) && s.table.votes[s.effId].value == s.effResult
  }

  // The vote `v` in slot `id` does not take the recorded result back, nor does it vote for
  // the first time the very value that stands for "no result".
  predicate LeavesRecord(s: VotableState, id: int32, v: ClientVote)
  {
    if s.effId == -EINVAL then !Counted(s.kind, v)
    else id != s.effId || (Counted(s.kind, v) && v.value == s.effResult)
  }

  lemma ElectedClientIsHonest(kind: VotableType, votes: seq<ClientVote>, voter: int32)
    requires !kind.VoteSetAny? && |votes| <= NUM_MAX_CLIENTS
    ensures var (res, id) := Elect(kind, votes, voter);
            if id == -EINVAL then forall i :: 0 <= i < |votes| ==> !Counted(kind, votes[i])
            else 0 <= id < |votes| && Counted(kind, votes[id]) && votes[id].value == res
  {
    MinScanIsMin(votes);
    MaxScanIsMax(votes);
  }

  // A vote keeps the record honest exactly when it changes the result, or is the first,
  // or leaves the recorded client's vote in place.
  lemma RecordStaysHonest(s: VotableState, name: Name, enabled: bool, val: int32, step: bool, rc: int32)
    requires Shaped(s) && !s.kind.VoteSetAny? && Honest(s) && ClientId(s.table.names, name) != -EINVAL
    ensures var out := ApplyVote(s, name, enabled, val, step, rc).state;
            var id := ClientId(s.table.names, name);
            var (res, _) := Elect(s.kind, out.table.votes, id);
            Honest(out) <==>
            !s.votedOn || res != s.effResult || LeavesRecord(s, id, VoteOf(s.kind, enabled, val))
  {
    var id := ClientId(s.table.names, name);
    var v := VoteOf(s.kind, enabled, val);
    var r := Register(s.table, name);
    SettleRecord(s, r, id, v, step, rc);
  }

  lemma SettleRecord(s: VotableState, r: Table, id: int32, v: ClientVote, step: bool, rc: int32)
    requires Shaped(s) && !s.kind.VoteSetAny? && Honest(s)
    requires r.Valid() && 0 <= id < |r.names| && |s.table.names| <= |r.names|
    requires forall i :: 0 <= i < |r.votes| ==> r.votes[i] == if i < |s.table.votes| then s.table.votes[i] else NO_VOTE
    ensures var t := r.(votes := r.votes[id := v]);
            var (res, _) := Elect(s.kind, t.votes, id);
            Honest(Settle(s, t, id, r.votes[id] == v, step, rc).state) <==>
            !s.votedOn || res != s.effResult || LeavesRecord(s, id, v)
  {
    var t := r.(votes := r.votes[id := v]);
    ElectedClientIsHonest(s.kind, t.votes, id);
    assert t.votes[id] == v;
    assert forall i :: 0 <= i < |t.votes| && i != id ==> t.votes[i] == r.votes[i];
  }

  // ------------------------------------------------------------------ whole histories

  // The operation is not a vote, or one that is refused or meets the condition above.
  predicate KeepsRecord(s: VotableState, op: Op)
    requires Shaped(s)
  {
    op.Vote? && ClientId(s.table.names, op.name) != -EINVAL ==>
      var id := ClientId(s.table.names, op.name);
      var table := ApplyVote(s, op.name, op.enabled, op.val, op.step, op.rc).state.table;
      || !s.votedOn
      || Elect(s.kind, table.votes, id).0 != s.effResult
      || LeavesRecord(s, id, VoteOf(s.kind, op.enabled, op.val))
  }

  lemma StepKeepsRecord(s: VotableState, op: Op)
    requires Callable(s, op) && !s.kind.VoteSetAny? && Honest(s)
    ensures Honest(Apply(s, op).state) <==> KeepsRecord(s, op)
  {
    match op
    case Vote(name, enabled, val, step, rc) =>
      if ClientId(s.table.names, name) != -EINVAL {
        RecordStaysHonest(s, name, enabled, val, step, rc);
      }
    case _ =>
  }

  ghost predicate AlwaysHonest(s: VotableState, ops: seq<Op>)
    requires Shaped(s) && s.hasCallback
  {
    Honest(Run(s, ops)) && (|ops| > 0 ==> AlwaysHonest(s, ops[..|ops| - 1]))
  }

  predicate AllKeepRecord(s: VotableState, ops: seq<Op>)
    requires Shaped(s) && s.hasCallback
  {
    |ops| == 0 ||
    var k := |ops| - 1;
    AllKeepRecord(s, ops[..k]) && KeepsRecord(Run(s, ops[..k]), ops[k])
  }

  // From creation on, the record is honest at every point of a history if and only if
  // every vote in it keeps it so.
  lemma {:induction false} HistoryStaysHonest(kind: VotableType, ops: seq<Op>)
    requires !kind.VoteSetAny?
    ensures AlwaysHonest(Created(kind, true), ops) <==> AllKeepRecord(Created(kind, true), ops)
  {
    if |ops| > 0 {
      var k := |ops| - 1;
      HistoryStaysHonest(kind, ops[..k]);
      if AlwaysHonest(Created(kind, true), ops[..k]) {
        StepKeepsRecord(Run(Created(kind, true), ops[..k]), ops[k]);
      }
    }
  }

  // A MIN votable after two clients have voted the same value.
  function Tie(a: Name, b: Name): VotableState {
    Created(VoteMin, true).(
      table := Table([a, b], [ClientVote(true, 5), ClientVote(true, 5)]), effId := 0, effResult := 5, votedOn := true)
  }

  lemma FirstVote(a: Name)
    ensures ApplyVote(Created(VoteMin, true), a, true, 5, false, 0).state ==
            Created(VoteMin, true).(
              table := Table([a], [ClientVote(true, 5)]), effId := 0, effResult := 5, votedOn := true)
  {
    assert [NO_VOTE][0 := ClientVote(true, 5)] == [ClientVote(true, 5)];
    assert [ClientVote(true, 5)][..0] == [];
    assert MinScan([ClientVote(true, 5)]) == (5, 0);
  }

  lemma SecondVote(a: Name, b: Name)
    requires a != b
    ensures var s := Created(VoteMin, true).(
                       table := Table([a], [ClientVote(true, 5)]), effId := 0, effResult := 5, votedOn := true);
            ApplyVote(s, b, true, 5, false, 0).state == Tie(a, b)
  {
    FirstIndexIs([a], b, 1);
    var votes := [ClientVote(true, 5), ClientVote(true, 5)];
    assert [a] + [b] == [a, b] && ([ClientVote(true, 5)] + [NO_VOTE])[1 := ClientVote(true, 5)] == votes;
    assert votes[..1] == [ClientVote(true, 5)] && votes[..1][..0] == [];
    assert MinScan(votes[..1]) == (5, 0) && MinScan(votes) == (5, 0);
  }

  lemma ThirdVote(a: Name, b: Name)
    requires a != b
    ensures ApplyVote(Tie(a, b), a, true, 7, false, 0).state ==
            Tie(a, b).(table := Table([a, b], [ClientVote(true, 7), ClientVote(true, 5)]))
  {
    FirstIndexIs([a, b], a, 0);
    var votes := [ClientVote(true, 7), ClientVote(true, 5)];
    assert [ClientVote(true, 5), ClientVote(true, 5)][0 := ClientVote(true, 7)] == votes;
    assert votes[..1] == [ClientVote(true, 7)] && votes[..1][..0] == [];
    assert MinScan(votes[..1]) == (7, 0) && MinScan(votes) == (5, 1);
  }

  lemma RunNext(s: VotableState, ops: seq<Op>, op: Op)
    requires Shaped(s) && s.hasCallback
    ensures Run(s, ops + [op]) == Apply(Run(s, ops), op).state
  {
    assert (ops + [op])[..|ops|] == ops;
  }

  function TieVotes(a: Name, b: Name): seq<Op> {
    [Vote(a, true, 5, false, 0)] + [Vote(b, true, 5, false, 0)] + [Vote(a, true, 7, false, 0)]
  }

  lemma TieRun(a: Name, b: Name)
    requires a != b
    ensures Run(Created(VoteMin, true), TieVotes(a, b)) ==
            Tie(a, b).(table := Table([a, b], [ClientVote(true, 7), ClientVote(true, 5)]))
  {
    var s0 := Created(VoteMin, true);
    var v1, v2, v3 := Vote(a, true, 5, false, 0), Vote(b, true, 5, false, 0), Vote(a, true, 7, false, 0);
    FirstVote(a);
    SecondVote(a, b);
    ThirdVote(a, b);
    assert [] + [v1] == [v1];
    RunNext(s0, [], v1);
    RunNext(s0, [v1], v2);
    RunNext(s0, [v1] + [v2], v3);
  }

  // From a fresh votable: two clients vote the same minimum, and the first one raises its
  // vote. The result stays, and so does the record of a client that votes something else.
  lemma TieLeavesStaleRecord(a: Name, b: Name)
    requires a != b
    ensures var s := Run(Created(VoteMin, true), TieVotes(a, b));
            s.effResult == 5 && EffectiveClient(s) == Some(a) && LookUp(s.table, a) == Some(ClientVote(true, 7)) && !Honest(s)
  {
    TieRun(a, b);
    FirstIndexIs([a, b], a, 0);
  }
}
