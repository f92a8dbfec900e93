// The votable refines a map from client name to last vote.
module VoterRefinement {
  import opened Common
  import opened Voter

  // ---------------------------------------------------------- one election

  lemma {:induction false} MinScanIsMin(votes: seq<ClientVote>)
    requires |votes| <= NUM_MAX_CLIENTS
    ensures var (res, id) := MinScan(votes);
            && (forall i :: 0 <= i < |votes| && votes[i].enabled ==> res <= votes[i].value)
            && (if id == -EINVAL then res == INT_MAX
                else 0 <= id < |votes| && Counted(VoteMin, votes[id]) && votes[id].value == res)
  {
    if |votes| > 0 {
      MinScanIsMin(votes[..|votes| - 1]);
    }
  }

  lemma {:induction false} MaxScanIsMax(votes: seq<ClientVote>)
    requires |votes| <= NUM_MAX_CLIENTS
    ensures var (res, id) := MaxScan(votes);
            && (forall i :: 0 <= i < |votes| && votes[i].enabled ==> res >= votes[i].value)
            && (if id == -EINVAL then res == INT_MIN
                else 0 <= id < |votes| && Counted(VoteMax, votes[id]) && votes[id].value == res)
  {
    if |votes| > 0 {
      MaxScanIsMax(votes[..|votes| - 1]);
    }
  }

  lemma {:induction false} BallotNames(names: seq<Name>, votes: seq<ClientVote>)
    requires |names| == |votes|
    ensures forall n :: n in BallotOf(names, votes) <==> n in names
  {
    if |names| > 0 {
      var k := |names| - 1;
      BallotNames(names[..k], votes[..k]);
      assert names == names[..k] + [names[k]];
    }
  }

  lemma {:induction false} BallotSize(names: seq<Name>, votes: seq<ClientVote>)
    requires |names| == |votes|
    requires forall i, j :: 0 <= i < j < |names| ==> names[i] != names[j]
    ensures |BallotOf(names, votes)| == |names|
  {
    if |names| > 0 {
      var k := |names| - 1;
      var m := BallotOf(names[..k], votes[..k]);
      BallotSize(names[..k], votes[..k]);
      BallotNames(names[..k], votes[..k]);
      assert names[k] !in names[..k];
      assert m[names[k] := votes[k]].Keys == m.Keys + {names[k]};
    }
  }

  lemma {:induction false} BallotEntry(names: seq<Name>, votes: seq<ClientVote>, i: nat)
    requires |names| == |votes| && i < |names|
    requires forall i, j :: 0 <= i < j < |names| ==> names[i] != names[j]
    ensures names[i] in BallotOf(names, votes) && BallotOf(names, votes)[names[i]] == votes[i]
  {
    var k := |names| - 1;
    if i < k {
      BallotEntry(names[..k], votes[..k], i);
    }
  }

  // The ballot has an entry for every used slot and no other, one per slot.
  lemma BallotEntries(names: seq<Name>, votes: seq<ClientVote>)
    requires |names| == |votes|
    requires forall i, j :: 0 <= i < j < |names| ==> names[i] != names[j]
    ensures var m := BallotOf(names, votes);
            && (forall i :: 0 <= i < |names| ==> names[i] in m && m[names[i]] == votes[i])
            && (forall n :: n in m ==> n in names)
            && |m| == |names|
  {
    BallotNames(names, votes);
    BallotSize(names, votes);
    forall i | 0 <= i < |names| ensures names[i] in BallotOf(names, votes) && BallotOf(names, votes)[names[i]] == votes[i] {
      BallotEntry(names, votes, i);
    }
  }

  // Writing a vote into a slot updates the ballot at that slot's name only.
  lemma {:induction false} WriteVote(names: seq<Name>, votes: seq<ClientVote>, id: nat, v: ClientVote)
    requires |names| == |votes| && id < |names|
    requires forall i, j :: 0 <= i < j < |names| ==> names[i] != names[j]
    ensures BallotOf(names, votes[id := v]) == BallotOf(names, votes)[names[id] := v]
  {
    var k := |names| - 1;
    if id < k {
      assert votes[id := v][..k] == votes[..k][id := v];
      WriteVote(names[..k], votes[..k], id, v);
    } else {
      assert votes[id := v][..k] == votes[..k];
    }
  }

  // `r` is the result of an election among the votes of the used slots.
  ghost predicate ElectedAmong(kind: VotableType, votes: seq<ClientVote>, r: int32) {
    if forall i :: 0 <= i < |votes| ==> !Counted(kind, votes[i]) then
      r == if kind.VoteSetAny? then 0 else -EINVAL
    else if kind.VoteSetAny? then r == 1
    else
      && (exists i :: 0 <= i < |votes| && Counted(kind, votes[i]) && votes[i].value == r)
      && (forall i :: 0 <= i < |votes| && Counted(kind, votes[i]) ==>
                        if kind.VoteMin? then r <= votes[i].value else r >= votes[i].value)
  }

  lemma ScanElects(kind: VotableType, votes: seq<ClientVote>, voter: int32)
    requires |votes| <= NUM_MAX_CLIENTS
    ensures ElectedAmong(kind, votes, Elect(kind, votes, voter).0)
  {
    match kind
    case VoteMin => MinScanIsMin(votes);
    case VoteMax => MaxScanIsMax(votes);
    case VoteSetAny =>
      if i :| 0 <= i < |votes| && votes[i].enabled {
        assert Counted(kind, votes[i]);
      }
  }

  lemma ElectedAmongSlots(kind: VotableType, t: Table, r: int32)
    requires t.Valid() && ElectedAmong(kind, t.votes, r)
    ensures IsElected(kind, Ballot(t), r)
  {
    BallotEntries(t.names, t.votes);
    var m := Ballot(t);
    forall n | n in m && Counted(kind, m[n])
      ensures exists i :: 0 <= i < |t.votes| && Counted(kind, t.votes[i]) && t.votes[i] == m[n]
    {
      var i :| 0 <= i < |t.names| && t.names[i] == n;
      assert t.votes[i] == m[n];
    }
    if i :| 0 <= i < |t.votes| && Counted(kind, t.votes[i]) && (!kind.VoteSetAny? ==> t.votes[i].value == r) {
      assert t.names[i] in m && Counted(kind, m[t.names[i]]);
    }
  }

  // vote_min, vote_max and vote_set_any elect over the map of last votes.
  lemma ElectIsElected(kind: VotableType, t: Table, voter: int32)
    requires t.Valid()
    ensures IsElected(kind, Ballot(t), Elect(kind, t.votes, voter).0)
  {
    ScanElects(kind, t.votes, voter);
    ElectedAmongSlots(kind, t, Elect(kind, t.votes, voter).0);
  }

  lemma ElectedIsUnique(kind: VotableType, m: map<Name, ClientVote>, r1: int32, r2: int32)
    requires IsElected(kind, m, r1) && IsElected(kind, m, r2)
    ensures r1 == r2
  {
  }

  // ------------------------------------------------------- the table of clients

  lemma BallotDomain(t: Table, name: Name)
    requires t.Valid()
    ensures name in Ballot(t) <==> FirstIndex(t.names, name) < |t.names|
    ensures |Ballot(t)| == |t.names|
  {
    BallotEntries(t.names, t.votes);
  }

  lemma RegisterNew(t: Table, name: Name)
    requires t.Valid() && FirstIndex(t.names, name) == |t.names| < NUM_MAX_CLIENTS
    ensures Ballot(Register(t, name)) == Ballot(t)[name := NO_VOTE]
  {
    assert (t.names + [name])[..|t.names|] == t.names && (t.votes + [NO_VOTE])[..|t.names|] == t.votes;
  }

  // Looking a client up registers it, without a vote, unless the table is full.
  lemma RegisterEffect(t: Table, name: Name)
    requires t.Valid()
    ensures Ballot(Register(t, name)) ==
            if name in Ballot(t) || |Ballot(t)| == NUM_MAX_CLIENTS then Ballot(t) else Ballot(t)[name := NO_VOTE]
    ensures ClientId(t.names, name) == -EINVAL <==> name !in Ballot(t) && |Ballot(t)| == NUM_MAX_CLIENTS
    ensures ClientId(t.names, name) != -EINVAL ==> Register(t, name).names[ClientId(t.names, name)] == name
  {
    BallotDomain(t, name);
    if FirstIndex(t.names, name) == |t.names| < NUM_MAX_CLIENTS {
      RegisterNew(t, name);
    }
  }

  // Entries without an enabled vote do not take part in an election.
  lemma AbstainersDoNotCount(kind: VotableType, m1: map<Name, ClientVote>, m2: map<Name, ClientVote>, r: int32)
    requires forall n :: n in m1 && m1[n].enabled ==> n in m2 && m2[n] == m1[n]
    requires forall n :: n in m2 && m2[n].enabled ==> n in m1 && m1[n] == m2[n]
    requires IsElected(kind, m1, r)
    ensures IsElected(kind, m2, r)
  {
    assert forall n :: n in m1 && Counted(kind, m1[n]) ==> n in m2 && Counted(kind, m2[n]);
    assert forall n :: n in m2 && Counted(kind, m2[n]) ==> n in m1 && Counted(kind, m1[n]);
  }

  // ----------------------------------------------------------------- one operation

  // What a vote leaves as its client's last vote. On a SET_ANY votable the value is not
  // the argument but 1 or 0, as the vote is enabled or not.
  function Stored(kind: VotableType, enabled: bool, val: int32): ClientVote {
    match kind
    case VoteSetAny => if enabled then ClientVote(true, 1) else ClientVote(false, 0)
    case VoteMin => ClientVote(enabled, val)
    case VoteMax => ClientVote(enabled, val)
  }

  // What an operation does to the map of last votes. A client that does not fit into
  // the 32 slots is ignored.
  function BallotAfter(kind: VotableType, m: map<Name, ClientVote>, op: Op): map<Name, ClientVote> {
    match op
    case Vote(name, enabled, val, _, _) =>
      if name in m || |m| < NUM_MAX_CLIENTS then
        m[name := Stored(kind, enabled, val)]
      else m
    case Query(name) => if name in m || |m| >= NUM_MAX_CLIENTS then m else m[name := NO_VOTE]
    case _ => m
  }

  // The slot a lookup returns holds the client's last vote, if it ever voted.
  lemma SlotOfClient(t: Table, name: Name)
    requires t.Valid() && ClientId(t.names, name) != -EINVAL
    ensures Register(t, name).votes[ClientId(t.names, name)] == if name in Ballot(t) then Ballot(t)[name] else NO_VOTE
  {
    RegisterEffect(t, name);
    var r := Register(t, name);
    BallotEntries(r.names, r.votes);
  }

  lemma WriteEffect(t: Table, name: Name, v: ClientVote)
    requires t.Valid() && ClientId(t.names, name) != -EINVAL
    ensures var r := Register(t, name); var id := ClientId(t.names, name);
            Ballot(r.(votes := r.votes[id := v])) == Ballot(t)[name := v]
  {
    RegisterEffect(t, name);
    var r := Register(t, name);
    WriteVote(r.names, r.votes, ClientId(t.names, name), v);
    assert Ballot(t)[name := NO_VOTE][name := v] == Ballot(t)[name := v];
  }

  // Voting the same again, or abstaining for the first time, changes no election.
  lemma SameVoteElects(kind: VotableType, m: map<Name, ClientVote>, name: Name, v: ClientVote, r: int32)
    requires v == if name in m then m[name] else NO_VOTE
    requires IsElected(kind, m, r)
    ensures IsElected(kind, m[name := v], r)
  {
    AbstainersDoNotCount(kind, m, m[name := v], r);
  }

  // The table after a vote, and the election a vote by the client in slot `id` holds.
  lemma VoteElects(s: VotableState, name: Name, v: ClientVote)
    requires Wf(s) && ClientId(s.table.names, name) != -EINVAL
    ensures var id := ClientId(s.table.names, name);
            var r := Register(s.table, name);
            var t := r.(votes := r.votes[id := v]);
            var (res, effId) := Elect(s.kind, t.votes, id);
            && Ballot(t) == Ballot(s.table)[name := v]
            && IsElected(s.kind, Ballot(t), res)
            && (effId == -EINVAL || 0 <= effId < |t.names|)
            && (r.votes[id] == v ==> IsElected(s.kind, Ballot(t), s.effResult))
  {
    var id := ClientId(s.table.names, name);
    var r := Register(s.table, name);
    var t := r.(votes := r.votes[id := v]);
    WriteEffect(s.table, name, v);
    SlotOfClient(s.table, name);
    ScanIds(t.votes);
    ElectIsElected(s.kind, t, id);
    if r.votes[id] == v {
      SameVoteElects(s.kind, Ballot(s.table), name, v, s.effResult);
    }
  }

  lemma SettleElects(s: VotableState, t: Table, id: int32, similar: bool, step: bool, rc: int32)
    requires Shaped(s) && t.Valid() && |s.table.names| <= |t.names| && 0 <= id < |t.names|
    requires IsElected(s.kind, Ballot(t), Elect(s.kind, t.votes, id).0)
    requires similar ==> IsElected(s.kind, Ballot(t), s.effResult)
    ensures Wf(Settle(s, t, id, similar, step, rc).state)
    ensures Settle(s, t, id, similar, step, rc).state.table == t
  {
    ScanIds(t.votes);
  }

  // The 33rd name is refused and changes nothing; any other vote becomes its client's
  // last vote, and the cached result is again the election over the last votes.
  lemma VoteRefines(s: VotableState, name: Name, enabled: bool, val: int32, step: bool, rc: int32)
    requires Wf(s)
    ensures var out := ApplyVote(s, name, enabled, val, step, rc);
            && Wf(out.state)
            && Ballot(out.state.table) == BallotAfter(s.kind, Ballot(s.table), Vote(name, enabled, val, step, rc))
            && (name !in Ballot(s.table) && |Ballot(s.table)| == NUM_MAX_CLIENTS ==> out == Outcome(s, -EINVAL, None))
  {
    RegisterEffect(s.table, name);
    BallotDomain(s.table, name);
    var id := ClientId(s.table.names, name);
    if id != -EINVAL {
      var v := VoteOf(s.kind, enabled, val);
      VoteElects(s, name, v);
      var r := Register(s.table, name);
      SettleElects(s, r.(votes := r.votes[id := v]), id, r.votes[id] == v, step, rc);
    }
  }

  lemma RegisterElects(kind: VotableType, t: Table, name: Name, r: int32)
    requires t.Valid() && IsElected(kind, Ballot(t), r)
    ensures IsElected(kind, Ballot(Register(t, name)), r)
  {
    RegisterEffect(t, name);
    if name !in Ballot(t) && |Ballot(t)| != NUM_MAX_CLIENTS {
      SameVoteElects(kind, Ballot(t), name, NO_VOTE, r);
    }
  }

  // A query may register its client but changes no vote and no result.
  lemma QueryRefines(s: VotableState, name: Name)
    requires Wf(s)
    ensures var s' := s.(table := Register(s.table, name));
            Wf(s') && Ballot(s'.table) == BallotAfter(s.kind, Ballot(s.table), Query(name))
  {
    RegisterElects(s.kind, s.table, name, s.effResult);
    assert Ballot(Register(s.table, name)) == BallotAfter(s.kind, Ballot(s.table), Query(name)) by {
      RegisterEffect(s.table, name);
      BallotDomain(s.table, name);
    }
  }

  // What a query answers is the client's entry in the map of last votes.
  lemma QueryAnswers(t: Table, name: Name)
    requires t.Valid()
    ensures var m := Ballot(t);
            LookUp(t, name) == if name in m then Some(m[name])
                               else if |m| < NUM_MAX_CLIENTS then Some(NO_VOTE)
                               else None
  {
    RegisterEffect(t, name);
    BallotDomain(t, name);
    if ClientId(t.names, name) != -EINVAL {
      SlotOfClient(t, name);
    }
  }

  lemma StepRefines(s: VotableState, op: Op)
    requires Wf(s) && Callable(s, op)
    ensures Wf(Apply(s, op).state)
    ensures Ballot(Apply(s, op).state.table) == BallotAfter(s.kind, Ballot(s.table), op)
  {
    match op
    case Vote(name, enabled, val, step, rc) => VoteRefines(s, name, enabled, val, step, rc);
    case Query(name) => QueryRefines(s, name);
    case _ =>
  }

  // ------------------------------------------------------------------ whole histories

  function BallotRun(kind: VotableType, ops: seq<Op>): map<Name, ClientVote> {
    if |ops| == 0 then map[]
    else BallotAfter(kind, BallotRun(kind, ops[..|ops| - 1]), ops[|ops| - 1])
  }

  // After any history of votes, queries, overrides, forces and reruns the table is a
  // gap-free list of distinct names standing for the map of last votes, and the cached
  // result is the election over that map.
  lemma {:induction false} HistoryRefines(kind: VotableType, hasCallback: bool, ops: seq<Op>)
    requires Runnable(Created(kind, hasCallback), ops)
    ensures var s := Run(Created(kind, hasCallback), ops);
            && Wf(s)
            && Ballot(s.table) == BallotRun(kind, ops)
            && IsElected(kind, BallotRun(kind, ops), s.effResult)
  {
    if |ops| > 0 {
      var k := |ops| - 1;
      HistoryRefines(kind, hasCallback, ops[..k]);
      StepRefines(Run(Created(kind, hasCallback), ops[..k]), ops[k]);
    }
  }

  function NamesIn(ops: seq<Op>): set<Name> {
    set op | op in ops && (op.Vote? || op.Query?) :: op.name
  }

  // The last vote `n` cast in a history.
  function LastVote(kind: VotableType, ops: seq<Op>, n: Name): ClientVote {
    if |ops| == 0 then NO_VOTE
    else
      var op := ops[|ops| - 1];
      if op.Vote? && op.name == n then Stored(kind, op.enabled, op.val)
      else LastVote(kind, ops[..|ops| - 1], n)
  }

  // With at most 32 names no vote is ever refused: the ballot holds every last vote.
  lemma {:induction false} BallotIsLastVotes(kind: VotableType, ops: seq<Op>, names: set<Name>)
    requires NamesIn(ops) <= names && |names| <= NUM_MAX_CLIENTS
    ensures var m := BallotRun(kind, ops);
            && m.Keys <= names
            && (forall n :: n in m ==> m[n] == LastVote(kind, ops, n))
            && (forall n :: n !in m ==> LastVote(kind, ops, n) == NO_VOTE)
  {
    if |ops| > 0 {
      var k := |ops| - 1;
      assert NamesIn(ops[..k]) <= NamesIn(ops) by {
        assert forall op :: op in ops[..k] ==> op in ops;
      }
      BallotIsLastVotes(kind, ops[..k], names);
      var m := BallotRun(kind, ops[..k]);
      var op := ops[k];
      assert op in ops;
      if (op.Vote? || op.Query?) && op.name !in m {
        assert op.name in NamesIn(ops);
        FewerKeys(m.Keys, names, op.name);
        assert |m| == |m.Keys|;
      }
    }
  }

  // What a query for `n` answers after any history: its last vote, as it was stored, or a
  // disabled vote of 0 if it never voted.
  lemma QueryIsLastVote(kind: VotableType, hasCallback: bool, ops: seq<Op>, n: Name)
    requires Runnable(Created(kind, hasCallback), ops) && |NamesIn(ops) + {n}| <= NUM_MAX_CLIENTS
    ensures LookUp(Run(Created(kind, hasCallback), ops).table, n) == Some(LastVote(kind, ops, n))
  {
    var m := BallotRun(kind, ops);
    HistoryRefines(kind, hasCallback, ops);
    BallotIsLastVotes(kind, ops, NamesIn(ops) + {n});
    QueryAnswers(Run(Created(kind, hasCallback), ops).table, n);
    if n !in m {
      FewerKeys(m.Keys, NamesIn(ops) + {n}, n);
      assert |m| == |m.Keys|;
    }
  }

  lemma FewerKeys(keys: set<Name>, names: set<Name>, n: Name)
    requires keys <= names && n in names && n !in keys
    ensures |keys| < |names|
  {
    assert keys <= names - {n};
    SubsetSize(keys, names - {n});
  }

  lemma {:induction false} SubsetSize(a: set<Name>, b: set<Name>)
    requires a <= b
    ensures |a| <= |b|
    decreases a
  {
    if n :| n in a {
      SubsetSize(a - {n}, b - {n});
    }
  }

  // The effective result is a function of the last enabled votes alone: neither the
  // order in which clients voted nor any query, override or force can change it.
  lemma OrderDoesNotMatter(kind: VotableType, hasCallback: bool, ops1: seq<Op>, ops2: seq<Op>)
    requires Runnable(Created(kind, hasCallback), ops1) && Runnable(Created(kind, hasCallback), ops2)
    requires |NamesIn(ops1)| <= NUM_MAX_CLIENTS && |NamesIn(ops2)| <= NUM_MAX_CLIENTS
    requires forall n :: LastVote(kind, ops1, n) == LastVote(kind, ops2, n)
    ensures Run(Created(kind, hasCallback), ops1).effResult == Run(Created(kind, hasCallback), ops2).effResult
  {
    var m1, m2 := BallotRun(kind, ops1), BallotRun(kind, ops2);
    HistoryRefines(kind, hasCallback, ops1);
    HistoryRefines(kind, hasCallback, ops2);
    BallotIsLastVotes(kind, ops1, NamesIn(ops1));
    BallotIsLastVotes(kind, ops2, NamesIn(ops2));
    var r := Run(Created(kind, hasCallback), ops1).effResult;
    AbstainersDoNotCount(kind, m1, m2, r);
    ElectedIsUnique(kind, m2, r, Run(Created(kind, hasCallback), ops2).effResult);
  }

  // ------------------------------------------------------- the documented result

  ghost predicate IsMinimum(m: map<Name, ClientVote>, r: int32) {
    && (exists n :: n in m && m[n].enabled && m[n].value == r)
    && (forall n :: n in m && m[n].enabled ==> r <= m[n].value)
  }

  ghost predicate IsMaximum(m: map<Name, ClientVote>, r: int32) {
    && (exists n :: n in m && m[n].enabled && m[n].value == r)
    && (forall n :: n in m && m[n].enabled ==> m[n].value <= r)
  }

  // The documentation promises the minimum of all enabled votes. With enabled votes
  // present that is what a MIN election yields if and only if one is below INT_MAX.
  lemma MinimumIffBelowMax(m: map<Name, ClientVote>, r: int32)
    requires IsElected(VoteMin, m, r) && exists n :: n in m && m[n].enabled
    ensures IsMinimum(m, r) <==> exists n :: n in m && m[n].enabled && m[n].value < INT_MAX
  {
    var n :| n in m && m[n].enabled;
    if k :| k in m && m[k].enabled && m[k].value < INT_MAX {
      assert Counted(VoteMin, m[k]);
    } else {
      assert m[n].value == INT_MAX;
      assert forall k :: k in m ==> !Counted(VoteMin, m[k]);
    }
  }

  lemma MaximumIffAboveMin(m: map<Name, ClientVote>, r: int32)
    requires IsElected(VoteMax, m, r) && exists n :: n in m && m[n].enabled
    ensures IsMaximum(m, r) <==> exists n :: n in m && m[n].enabled && m[n].value > INT_MIN
  {
    var n :| n in m && m[n].enabled;
    if k :| k in m && m[k].enabled && m[k].value > INT_MIN {
      assert Counted(VoteMax, m[k]);
    } else {
      assert m[n].value == INT_MIN;
      assert forall k :: k in m ==> !Counted(VoteMax, m[k]);
    }
  }
}
