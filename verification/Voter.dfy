// The votable of oplus_chg_voter.c: a 32-slot table of named votes, an election whose
// result is cached, a callback protocol, and an override and a debug force on top.
module Voter {
  import opened Common

  const NUM_MAX_CLIENTS := 32

  // A client string. The voter only copies and compares names, so a name is modelled by
  // its identity; the strings that occur in the modelled files have their own.
  datatype Name =
    | USER_VOTER | TIMEOUT_VOTER | UOVP_VOTER | FFC_VOTER | STOP_VOTER
    | DEBUG_FORCE_CLIENT
    | Other(id: nat)

  datatype VotableType = VoteMin | VoteMax | VoteSetAny

  datatype ClientVote = ClientVote(enabled: bool, value: int32)

  const NO_VOTE := ClientVote(false, 0)

  // The arguments of one invocation of the votable's callback.
  datatype Call = Call(result: int32, client: Option<Name>, step: bool)

  // The registered clients in slot order, and their last votes.
  datatype Table = Table(names: seq<Name>, votes: seq<ClientVote>) {
    ghost predicate Valid() {
      && |names| == |votes| <= NUM_MAX_CLIENTS
      && (forall i, j :: 0 <= i < j < |names| ==> names[i] != names[j])
    }
  }

  datatype VotableState = VotableState(
    kind: VotableType,
    hasCallback: bool,
    table: Table,
    effId: int32,
    effResult: int32,
    overrideResult: int32,
    overrideClient: Option<Name>,
    votedOn: bool,
    forceVal: uint32,
    forceActive: bool)

  // ---------------------------------------------------------------- election

  // Scan of vote_min over the registered votes: the result so far and its slot.
  function MinScan(votes: seq<ClientVote>): (int32, int32)
    requires |votes| <= NUM_MAX_CLIENTS
  {
    if |votes| == 0 then (INT_MAX, -EINVAL)
    else
      var k := |votes| - 1;
      var (res, id) := MinScan(votes[..k]);
      if votes[k].enabled && res > votes[k].value then (votes[k].value, k) else (res, id)
  }

  function MaxScan(votes: seq<ClientVote>): (int32, int32)
    requires |votes| <= NUM_MAX_CLIENTS
  {
    if |votes| == 0 then (INT_MIN, -EINVAL)
    else
      var k := |votes| - 1;
      var (res, id) := MaxScan(votes[..k]);
      if votes[k].enabled && res < votes[k].value then (votes[k].value, k) else (res, id)
  }

  // Effective result and effective slot after `voter` has voted.
  function Elect(kind: VotableType, votes: seq<ClientVote>, voter: int32): (int32, int32)
    requires |votes| <= NUM_MAX_CLIENTS
  {
    match kind
    case VoteMin =>
      var (res, id) := MinScan(votes);
      (if id == -EINVAL then -EINVAL else res, id)
    case VoteMax =>
      var (res, id) := MaxScan(votes);
      (if id == -EINVAL then -EINVAL else res, id)
    case VoteSetAny =>
      (BoolToInt(exists i :: 0 <= i < |votes| && votes[i].enabled), voter)
  }

  // -------------------------------------------------------- the table of clients

  // The slot of `name`, which is the next free one if `name` is new.
  function ClientId(names: seq<Name>, name: Name): int32
    requires |names| <= NUM_MAX_CLIENTS
  {
    var i := FirstIndex(names, name);
    if i < NUM_MAX_CLIENTS then i else -EINVAL
  }

  // Any lookup registers a client that is new.
  function Register(t: Table, name: Name): (r: Table)
    requires t.Valid()
    ensures r.Valid() && |t.names| <= |r.names|
    ensures ClientId(t.names, name) != -EINVAL ==> ClientId(t.names, name) < |r.names|
  {
    if FirstIndex(t.names, name) < |t.names| || |t.names| == NUM_MAX_CLIENTS then t
    else Table(t.names + [name], t.votes + [NO_VOTE])
  }

  // The vote a query by `name` reads, unless the table is full.
  function LookUp(t: Table, name: Name): Option<ClientVote>
    requires t.Valid()
  {
    var id := ClientId(t.names, name);
    if id < 0 then None else Some(Register(t, name).votes[id])
  }

  ghost predicate Shaped(s: VotableState) {
    && s.table.Valid()
    && (s.effId == -EINVAL || 0 <= s.effId < |s.table.names|)
  }

  function ClientStr(t: Table, id: int32): Option<Name>
    requires id == -EINVAL || 0 <= id < |t.names|
  {
    if id == -EINVAL then None else Some(t.names[id])
  }

  // ---------------------------------------------------------------- operations

  // A votable as oplus_create_votable leaves it (the allocation is zeroed).
  function Created(kind: VotableType, hasCallback: bool): VotableState {
    VotableState(kind, hasCallback,
                 Table([], []), -EINVAL, if kind.VoteSetAny? then 0 else -EINVAL, -EINVAL, None, false, 0, false)
  }

  function EffectiveResult(s: VotableState): int32 {
    if s.forceActive then ToInt(s.forceVal)
    else if s.overrideResult != -EINVAL then s.overrideResult
    else s.effResult
  }

  function EffectiveClient(s: VotableState): Option<Name>
    requires Shaped(s)
  {
    if s.forceActive then Some(DEBUG_FORCE_CLIENT)
    else if s.overrideResult != -EINVAL then s.overrideClient
    else ClientStr(s.table, s.effId)
  }

  // `rc` of an operation is what the callback returns if it is invoked.
  datatype Op =
    | Vote(name: Name, enabled: bool, val: int32, step: bool, rc: int32)
    | Query(name: Name)
    | Override(client: Name, enabled: bool, val: int32, step: bool, rc: int32)
    | Force(active: bool, rc: int32)
    | SetForceVal(u: uint32)
    | Rerun(step: bool, rc: int32)

  datatype Outcome = Outcome(state: VotableState, rc: int32, call: Option<Call>)

  // oplus_vote_override dereferences the callback unless the votable is forced.
  ghost predicate Callable(s: VotableState, op: Op) {
    Shaped(s) && (op.Override? && !s.forceActive ==> s.hasCallback)
  }

  // oplus_vote once the vote is in slot `id` of table `t`.
  function Settle(s: VotableState, t: Table, id: int32, similar: bool, step: bool, rc: int32): (out: Outcome)
    requires Shaped(s) && t.Valid() && |s.table.names| <= |t.names| && 0 <= id < |t.names|
    ensures Shaped(out.state)
  {
    if similar && s.votedOn then Outcome(s.(table := t), 0, None)
    else
      var (res, effId) := Elect(s.kind, t.votes, id);
      ScanIds(t.votes);
      if s.votedOn && res == s.effResult then Outcome(s.(table := t), 0, None)
      else
        var s' := s.(table := t, effId := effId, effResult := res, votedOn := true);
        if s.hasCallback && !s.forceActive && s.overrideResult == -EINVAL
        then Outcome(s', rc, Some(Call(res, ClientStr(t, effId), step)))
        else Outcome(s', 0, None)
  }

  function VoteOf(kind: VotableType, enabled: bool, val: int32): ClientVote {
    ClientVote(enabled, if kind.VoteSetAny? then BoolToInt(enabled) else val)
  }

  function ApplyVote(s: VotableState, name: Name, enabled: bool, val: int32, step: bool, rc: int32): Outcome
    requires Shaped(s)
  {
    var id := ClientId(s.table.names, name);
    if id < 0 then Outcome(s, id, None)
    else
      var v := VoteOf(s.kind, enabled, val);
      var r := Register(s.table, name);
      Settle(s, r.(votes := r.votes[id := v]), id, r.votes[id] == v, step, rc)
  }

  function ApplyOverride(s: VotableState, client: Name, enabled: bool, val: int32, step: bool, rc: int32): Outcome
    requires Shaped(s) && (s.forceActive || s.hasCallback)
  {
    if s.forceActive then Outcome(s.(overrideResult := if enabled then val else -EINVAL), 0, None)
    else if enabled then
      Outcome(if rc == 0 then s.(overrideClient := Some(client), overrideResult := val) else s,
              rc, Some(Call(val, Some(client), step)))
    else
      Outcome(s.(overrideResult := -EINVAL), rc, Some(Call(s.effResult, ClientStr(s.table, s.effId), step)))
  }

  function ApplyForce(s: VotableState, active: bool, rc: int32): Outcome
    requires Shaped(s)
  {
    var s1 := s.(forceActive := active);
    if s.hasCallback then Outcome(s1, rc, Some(Call(EffectiveResult(s1), EffectiveClient(s1), false)))
    else Outcome(s1, 0, None)
  }

  function Apply(s: VotableState, op: Op): (out: Outcome)
    requires Callable(s, op)
    ensures Shaped(out.state)
    ensures out.state.kind == s.kind && out.state.hasCallback == s.hasCallback
  {
    match op
    case Vote(name, enabled, val, step, rc) => ApplyVote(s, name, enabled, val, step, rc)
    case Query(name) => Outcome(s.(table := Register(s.table, name)), 0, None)
    case Override(client, enabled, val, step, rc) => ApplyOverride(s, client, enabled, val, step, rc)
    case Force(active, rc) => ApplyForce(s, active, rc)
    case SetForceVal(u) => Outcome(s.(forceVal := u), 0, None)
    case Rerun(step, rc) =>
      if s.hasCallback then Outcome(s, rc, Some(Call(EffectiveResult(s), ClientStr(s.table, s.effId), step)))
      else Outcome(s, 0, None)
  }

  // Without a callback, oplus_vote_override must not be called.
  predicate Runnable(s: VotableState, ops: seq<Op>) {
    s.hasCallback || forall op :: op in ops ==> !op.Override?
  }

  // The state after a history.
  function Run(s: VotableState, ops: seq<Op>): (r: VotableState)
    requires Shaped(s) && Runnable(s, ops)
    ensures Shaped(r) && r.kind == s.kind && r.hasCallback == s.hasCallback
  {
    if |ops| == 0 then s
    else
      var k := |ops| - 1;
      assert forall op :: op in ops[..k] ==> op in ops;
      assert ops[k] in ops;
      Apply(Run(s, ops[..k]), ops[k]).state
  }

  lemma {:induction false} ScanIds(votes: seq<ClientVote>)
    requires |votes| <= NUM_MAX_CLIENTS
    ensures MinScan(votes).1 == -EINVAL || 0 <= MinScan(votes).1 < |votes|
    ensures MaxScan(votes).1 == -EINVAL || 0 <= MaxScan(votes).1 < |votes|
  {
    if |votes| > 0 {
      ScanIds(votes[..|votes| - 1]);
    }
  }

  // -------------------------------------------------- the table as a map of votes

  function BallotOf(names: seq<Name>, votes: seq<ClientVote>): map<Name, ClientVote>
    requires |names| == |votes|
  {
    if |names| == 0 then map[]
    else
      var k := |names| - 1;
      BallotOf(names[..k], votes[..k])[names[k] := votes[k]]
  }

  // The map from client name to last vote that the table stands for.
  function Ballot(t: Table): map<Name, ClientVote>
    requires t.Valid()
  {
    BallotOf(t.names, t.votes)
  }

  // A vote of INT_MAX never lowers, and one of INT_MIN never raises, the running result.
  predicate Counted(kind: VotableType, v: ClientVote) {
    v.enabled && (kind.VoteMin? ==> v.value < INT_MAX) && (kind.VoteMax? ==> v.value > INT_MIN)
  }

  // `r` is the result of an election among the votes of `m`.
  ghost predicate IsElected(kind: VotableType, m: map<Name, ClientVote>, r: int32) {
    if !exists n :: n in m && Counted(kind, m[n]) then
      r == if kind.VoteSetAny? then 0 else -EINVAL
    else
      match kind
      case VoteSetAny => r == 1
      case VoteMin =>
        && (exists n :: n in m && Counted(kind, m[n]) && m[n].value == r)
        && (forall n :: n in m && Counted(kind, m[n]) ==> r <= m[n].value)
      case VoteMax =>
        && (exists n :: n in m && Counted(kind, m[n]) && m[n].value == r)
        && (forall n :: n in m && Counted(kind, m[n]) ==> r >= m[n].value)
  }

  // The cached result is the election over the ballot.
  ghost predicate Wf(s: VotableState) {
    Shaped(s) && IsElected(s.kind, Ballot(s.table), s.effResult)
  }
}
