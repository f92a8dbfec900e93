// The votable as an object: fixed arrays of client strings and votes, changed in place.
module VotableObject {
  import opened Common
  import opened Voter

  class Votable {
    const kind: VotableType
    const hasCallback: bool
    const clientStrs: array<Option<Name>>
    const votes: array<ClientVote>
    var effectiveClientId: int32
    var effectiveResult: int32
    var overrideResult: int32
    var overrideClient: Option<Name>
    var votedOn: bool
    var forceVal: uint32
    var forceActive: bool

    ghost var table: Table  // the used slots of clientStrs and votes

    ghost predicate Slots()
      reads this, clientStrs, votes
    {
      && clientStrs.Length == votes.Length == NUM_MAX_CLIENTS
      && table.Valid()
      && (forall i :: 0 <= i < |table.names| ==> clientStrs[i] == Some(table.names[i]) && votes[i] == table.votes[i])
      && (forall i :: |table.names| <= i < NUM_MAX_CLIENTS ==> clientStrs[i] == None && votes[i] == NO_VOTE)
    }

    ghost function View(): VotableState
      reads this
    {
      VotableState(kind, hasCallback, table, effectiveClientId, effectiveResult, overrideResult,
                   overrideClient, votedOn, forceVal, forceActive)
    }

    ghost predicate Valid()
      reads this, clientStrs, votes
    {
      Slots() && Shaped(View())
    }

    constructor (kind: VotableType, hasCallback: bool)
      ensures Valid() && fresh(clientStrs) && fresh(votes)
      ensures View() == Created(kind, hasCallback)
    {
      this.kind, this.hasCallback := kind, hasCallback;
      clientStrs := new Option<Name>[NUM_MAX_CLIENTS](_ => None);
      votes := new ClientVote[NUM_MAX_CLIENTS](_ => NO_VOTE);
      effectiveClientId := -EINVAL;
      effectiveResult := if kind.VoteSetAny? then 0 else -EINVAL;
      overrideResult, overrideClient := -EINVAL, None;
      votedOn, forceVal, forceActive := false, 0, false;
      table := Table([], []);
    }

    // The slot of a client, which is created if the name is new and a slot is free.
    method GetClientId(name: Name) returns (id: int32)
      requires Slots()
      modifies this`table, clientStrs
      ensures Slots()
      ensures id == ClientId(old(table).names, name) && table == Register(old(table), name)
    {
      var i := 0;
      while i < NUM_MAX_CLIENTS
        invariant 0 <= i <= NUM_MAX_CLIENTS
        invariant forall j :: 0 <= j < i && j < |table.names| ==> table.names[j] != name
      {
        if clientStrs[i] == Some(name) {
          FirstIndexIs(table.names, name, i);
          return i;
        }
        i := i + 1;
      }
      FirstIndexIs(table.names, name, |table.names|);
      i := 0;
      while i < NUM_MAX_CLIENTS
        invariant 0 <= i <= |table.names|
      {
        if clientStrs[i].None? {
          FillSlot(i, name);
          return i;
        }
        i := i + 1;
      }
      return -EINVAL;
    }

    method FillSlot(i: nat, name: Name)
      requires Slots() && i == |table.names| < NUM_MAX_CLIENTS && name !in table.names
      modifies this`table, clientStrs
      ensures Slots()
      ensures table == Table(old(table).names + [name], old(table).votes + [NO_VOTE])
    {
      clientStrs[i] := Some(name);
      table := Table(table.names + [name], table.votes + [NO_VOTE]);
    }

    method RunVoteMin() returns (effRes: int32, effId: int32)
      requires Slots()
      ensures (effRes, effId) == Elect(VoteMin, table.votes, 0)
    {
      effRes, effId := INT_MAX, -EINVAL;
      var i := 0;
      while i < NUM_MAX_CLIENTS && clientStrs[i].Some?
        invariant 0 <= i <= |table.votes|
        invariant (effRes, effId) == MinScan(table.votes[..i])
      {
        assert table.votes[..i + 1][..i] == table.votes[..i];
        if votes[i].enabled && effRes > votes[i].value {
          effRes, effId := votes[i].value, i;
        }
        i := i + 1;
      }
      assert table.votes[..i] == table.votes;
      if effId == -EINVAL {
        effRes := -EINVAL;
      }
    }

    method RunVoteMax() returns (effRes: int32, effId: int32)
      requires Slots()
      ensures (effRes, effId) == Elect(VoteMax, table.votes, 0)
    {
      effRes, effId := INT_MIN, -EINVAL;
      var i := 0;
      while i < NUM_MAX_CLIENTS && clientStrs[i].Some?
        invariant 0 <= i <= |table.votes|
        invariant (effRes, effId) == MaxScan(table.votes[..i])
      {
        assert table.votes[..i + 1][..i] == table.votes[..i];
        if votes[i].enabled && effRes < votes[i].value {
          effRes, effId := votes[i].value, i;
        }
        i := i + 1;
      }
      assert table.votes[..i] == table.votes;
      if effId == -EINVAL {
        effRes := -EINVAL;
      }
    }

    method RunVoteSetAny(clientId: int32) returns (effRes: int32, effId: int32)
      requires Slots()
      ensures (effRes, effId) == Elect(VoteSetAny, table.votes, clientId)
    {
      effRes := 0;
      var i := 0;
      while i < NUM_MAX_CLIENTS && clientStrs[i].Some?
        invariant 0 <= i <= |table.votes|
        invariant effRes == BoolToInt(exists j :: 0 <= j < i && table.votes[j].enabled)
      {
        if votes[i].enabled {
          effRes := 1;
          assert table.votes[i].enabled;
        }
        i := i + 1;
      }
      effId := clientId;
    }

    method RunElection(voter: int32) returns (effRes: int32, effId: int32)
      requires Slots()
      ensures (effRes, effId) == Elect(kind, table.votes, voter)
    {
      match kind {
        case VoteMin => effRes, effId := RunVoteMin();
        case VoteMax => effRes, effId := RunVoteMax();
        case VoteSetAny => effRes, effId := RunVoteSetAny(voter);
      }
    }

    // The part of a vote that follows the change of the slot `id`;
    // `s` is the state before the vote, of which only the table has changed.
    method SettleVote(ghost s: VotableState, id: int32, similarVote: bool, step: bool, cbRc: int32)
      returns (rc: int32, call: Option<Call>)
      requires Slots() && View() == s.(table := table)
      requires Shaped(s) && |s.table.names| <= |table.names| && 0 <= id < |table.names|
      modifies this`effectiveClientId, this`effectiveResult, this`votedOn
      ensures Slots()
      ensures Outcome(View(), rc, call) == Settle(s, table, id, similarVote, step, cbRc)
    {
      rc, call := 0, None;
      if similarVote && votedOn {
        return;
      }
      var effRes, effId := RunElection(id);
      ScanIds(table.votes);
      if !votedOn || effRes != effectiveResult {
        effectiveClientId, effectiveResult := effId, effRes;
        if hasCallback && !forceActive && overrideResult == -EINVAL {
          var client := GetClientStr(effId);
          rc, call := cbRc, Some(Call(effRes, client, step));
        }
      }
      votedOn := true;
    }

    method StoreVote(id: int32, enabled: bool, val: int32) returns (similarVote: bool)
      requires Slots() && 0 <= id < |table.names|
      modifies this`table, votes
      ensures Slots()
      ensures table == old(table).(votes := old(table).votes[id := ClientVote(enabled, val)])
      ensures similarVote <==> old(table).votes[id] == ClientVote(enabled, val)
    {
      similarVote := votes[id].enabled == enabled && votes[id].value == val;
      votes[id] := ClientVote(enabled, val);
      table := table.(votes := table.votes[id := ClientVote(enabled, val)]);
    }

    // The vote of a client whose slot `id` has just been looked up; `s` is the state
    // before the lookup, of which only the table may have changed.
    method VoteInSlot(ghost s: VotableState, id: int32, enabled: bool, value: int32, step: bool, cbRc: int32)
      returns (rc: int32, call: Option<Call>)
      requires Slots() && View() == s.(table := table)
      requires Shaped(s) && |s.table.names| <= |table.names| && 0 <= id < |table.names|
      modifies this, votes
      ensures Slots()
      ensures var r, v := old(table), VoteOf(s.kind, enabled, value);
              Outcome(View(), rc, call) == Settle(s, r.(votes := r.votes[id := v]), id, r.votes[id] == v, step, cbRc)
    {
      var val := if kind.VoteSetAny? then BoolToInt(enabled) else value;
      var similarVote := StoreVote(id, enabled, val);
      rc, call := SettleVote(s, id, similarVote, step, cbRc);
    }

    // `cbRc` is what the callback returns if it is invoked; `call` tells whether, and with what.
    method CastVote(name: Name, enabled: bool, value: int32, step: bool, cbRc: int32)
      returns (rc: int32, call: Option<Call>)
      requires Valid()
      modifies this, clientStrs, votes
      ensures Valid()
      ensures Outcome(View(), rc, call) == Apply(old(View()), Vote(name, enabled, value, step, cbRc))
    {
      ghost var s := View();
      var id := GetClientId(name);
      if id < 0 {
        rc, call := id, None;
      } else {
        rc, call := VoteInSlot(s, id, enabled, value, step, cbRc);
      }
    }

    method GetClientStr(id: int32) returns (client: Option<Name>)
      requires Slots() && (id == -EINVAL || 0 <= id < |table.names|)
      ensures client == ClientStr(table, id)
    {
      client := if id == -EINVAL then None else clientStrs[id];
    }

    method VoteOverride(client: Name, enabled: bool, val: int32, step: bool, cbRc: int32)
      returns (rc: int32, call: Option<Call>)
      requires Valid() && (forceActive || hasCallback)
      modifies this
      ensures Valid()
      ensures Outcome(View(), rc, call) == Apply(old(View()), Override(client, enabled, val, step, cbRc))
    {
      if forceActive {
        overrideResult := if enabled then val else -EINVAL;
        return 0, None;
      }
      if enabled {
        rc, call := cbRc, Some(Call(val, Some(client), step));
        if rc == 0 {
          overrideClient, overrideResult := Some(client), val;
        }
      } else {
        var effective := GetClientStr(effectiveClientId);
        rc, call := cbRc, Some(Call(effectiveResult, effective, step));
        overrideResult := -EINVAL;
      }
    }

    method RerunElection(step: bool, cbRc: int32) returns (rc: int32, call: Option<Call>)
      requires Valid()
      ensures Outcome(View(), rc, call) == Apply(View(), Rerun(step, cbRc))
    {
      rc, call := 0, None;
      var result := GetEffectiveResult();
      if hasCallback {
        var client := GetClientStr(effectiveClientId);
        rc, call := cbRc, Some(Call(result, client, step));
      }
    }

    method ForceActiveSet(active: bool, cbRc: int32) returns (rc: int32, call: Option<Call>)
      requires Valid()
      modifies this
      ensures Valid()
      ensures Outcome(View(), rc, call) == Apply(old(View()), Force(active, cbRc))
    {
      forceActive := active;
      rc, call := 0, None;
      if !hasCallback {
        return;
      }
      if forceActive {
        call := Some(Call(ToInt(forceVal), Some(DEBUG_FORCE_CLIENT), false));
      } else if overrideResult != -EINVAL {
        call := Some(Call(overrideResult, overrideClient, false));
      } else {
        var client := GetClientStr(effectiveClientId);
        call := Some(Call(effectiveResult, client, false));
      }
      rc := cbRc;
    }

    method GetEffectiveResult() returns (value: int32)
      ensures value == EffectiveResult(View())
    {
      if forceActive {
        return ToInt(forceVal);
      }
      if overrideResult != -EINVAL {
        return overrideResult;
      }
      return effectiveResult;
    }

    // The query of a client's vote registers the client, but changes nothing else.
    method GetClientVote(name: Name) returns (value: int32)
      requires Valid()
      modifies this`table, clientStrs
      ensures Valid()
      ensures View() == Apply(old(View()), Query(name)).state
      ensures value == match LookUp(old(table), name)
                       case None => -EINVAL
                       case Some(v) => if !kind.VoteSetAny? && !v.enabled then -EINVAL else v.value
    {
      var id := GetClientId(name);
      if id < 0 {
        return -EINVAL;
      }
      if !kind.VoteSetAny? && !votes[id].enabled {
        return -EINVAL;
      }
      return votes[id].value;
    }

    method IsClientVoteEnabled(name: Name) returns (enabled: bool)
      requires Valid()
      modifies this`table, clientStrs
      ensures Valid()
      ensures View() == Apply(old(View()), Query(name)).state
      ensures enabled <==> LookUp(old(table), name).Some? && LookUp(old(table), name).value.enabled
    {
      var id := GetClientId(name);
      if id < 0 {
        return false;
      }
      return votes[id].enabled;
    }

    // The freed strings are all the names that ever registered, each once.
    method Destroy() returns (freed: seq<Name>)
      requires Valid()
      ensures freed == table.names
      ensures forall n :: n in freed <==> exists i :: 0 <= i < NUM_MAX_CLIENTS && clientStrs[i] == Some(n)
      ensures forall i, j :: 0 <= i < j < |freed| ==> freed[i] != freed[j]
    {
      freed := [];
      var i := 0;
      while i < NUM_MAX_CLIENTS && clientStrs[i].Some?
        invariant 0 <= i <= |table.names|
        invariant freed == table.names[..i]
      {
        freed := freed + [clientStrs[i].value];
        i := i + 1;
      }
      assert freed == table.names;
      forall n | n in freed
        ensures exists i :: 0 <= i < NUM_MAX_CLIENTS && clientStrs[i] == Some(n)
      {
        var k :| 0 <= k < |freed| && freed[k] == n;
        assert clientStrs[k] == Some(n);
      }
    }
  }
}
