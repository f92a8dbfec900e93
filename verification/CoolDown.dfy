// Time per cool-down level: oplus_chg_track_cal_cool_down_stats.
module CoolDown {

  const LEVELS := 32

  // One call of the tracker: the chip's cool-down level, whether it reports charging, and
  // the local time in seconds.
  datatype Tick = Tick(level: int, charging: bool, now: int)

  // cool_down_stats_table[].time, cool_down_status with its time of change, the effect
  // count, and the charging status that the tracker stored at the end of its last call.
  datatype State = State(times: seq<int>, status: int, changeT: int, effectCnt: int, wasCharging: bool)

  // A call of the function, followed by the tracker's update of the stored status.
  function Step(s: State, x: Tick): State
    requires |s.times| == LEVELS
  {
    if x.level > LEVELS - 1 || x.level < 0 then s.(wasCharging := x.charging)
    else
      var times := if s.wasCharging then s.times[x.level := s.times[x.level] + x.now - s.changeT] else s.times;
      State(times, x.level, x.now, s.effectCnt + (if x.charging && x.level != 0 then 1 else 0), x.charging)
  }

  function Run(s: State, xs: seq<Tick>): (r: State)
    requires |s.times| == LEVELS
    ensures |r.times| == LEVELS
  {
    if |xs| == 0 then s else Step(Run(s, xs[..|xs| - 1]), xs[|xs| - 1])
  }

  function Sum(times: seq<int>): int {
    if |times| == 0 then 0 else Sum(times[..|times| - 1]) + times[|times| - 1]
  }

  lemma {:induction false} SumUpdate(times: seq<int>, i: nat, t: int)
    requires i < |times|
    ensures Sum(times[i := t]) == Sum(times) - times[i] + t
  {
    var k := |times| - 1;
    if i < k {
      assert times[i := t][..k] == times[..k][i := t];
      SumUpdate(times[..k], i, t);
    } else {
      assert times[i := t][..k] == times[..k];
    }
  }

  // ------------------------------------------------------------------ credited time

  // The level is one of the 32 of the table; other ticks are skipped.
  predicate Valid(x: Tick) {
    0 <= x.level < 32
  }

  // The time of the last valid tick, or `t` if there is none.
  function LastValid(xs: seq<Tick>, t: int): int {
    if |xs| == 0 then t
    else if Valid(xs[|xs| - 1]) then xs[|xs| - 1].now
    else LastValid(xs[..|xs| - 1], t)
  }

  function LastLevel(xs: seq<Tick>, level: int): int {
    if |xs| == 0 then level
    else if Valid(xs[|xs| - 1]) then xs[|xs| - 1].level
    else LastLevel(xs[..|xs| - 1], level)
  }

  // Valid ticks that find the charger charging at a level above 0.
  function CooledTicks(xs: seq<Tick>): nat {
    if |xs| == 0 then 0
    else CooledTicks(xs[..|xs| - 1]) + if 0 < xs[|xs| - 1].level < 32 && xs[|xs| - 1].charging then 1 else 0
  }

  function Charging(s: State, xs: seq<Tick>): bool {
    if |xs| == 0 then s.wasCharging else xs[|xs| - 1].charging
  }

  // The interval that the last tick of a trace closes: from the valid tick before it, if
  // the tick itself is valid and the one before it was charging.
  function Interval(s: State, xs: seq<Tick>): int
    requires |xs| > 0
  {
    var k := |xs| - 1;
    if Valid(xs[k]) && Charging(s, xs[..k]) then xs[k].now - LastValid(xs[..k], s.changeT) else 0
  }

  // All intervals of a trace, and those that a tick of the given level closes.
  function Elapsed(s: State, xs: seq<Tick>): int {
    if |xs| == 0 then 0 else Elapsed(s, xs[..|xs| - 1]) + Interval(s, xs)
  }

  function ElapsedAt(s: State, xs: seq<Tick>, level: int): int {
    if |xs| == 0 then 0
    else ElapsedAt(s, xs[..|xs| - 1], level) + if xs[|xs| - 1].level == level then Interval(s, xs) else 0
  }

  // The status is that of the last valid tick, and the effect count that of the ticks on
  // which cooling took effect.
  lemma {:induction false} StatusIsLastValid(s: State, xs: seq<Tick>)
    requires |s.times| == LEVELS
    ensures Run(s, xs).changeT == LastValid(xs, s.changeT) && Run(s, xs).wasCharging == Charging(s, xs)
    ensures Run(s, xs).status == LastLevel(xs, s.status)
    ensures Run(s, xs).effectCnt == s.effectCnt + CooledTicks(xs)
  {
    if |xs| > 0 {
      StatusIsLastValid(s, xs[..|xs| - 1]);
    }
  }

  // Every interval is credited to exactly one bucket, the one of the level that closes
  // it, and the buckets together hold all the time elapsed, skipped ticks or not.
  lemma {:induction false} BucketsConserve(s: State, xs: seq<Tick>)
    requires |s.times| == LEVELS
    ensures var r := Run(s, xs);
            && (forall l :: 0 <= l < LEVELS ==> r.times[l] == s.times[l] + ElapsedAt(s, xs, l))
            && Sum(r.times) == Sum(s.times) + Elapsed(s, xs)
  {
    if |xs| > 0 {
      var k := |xs| - 1;
      var r := Run(s, xs[..k]);
      BucketsConserve(s, xs[..k]);
      StatusIsLastValid(s, xs[..k]);
      if Valid(xs[k]) {
        SumUpdate(r.times, xs[k].level, r.times[xs[k].level] + xs[k].now - r.changeT);
      }
    }
  }

  // ----------------------------------------------------------- time spent charging

  // The time up to the last tick that passed with the charger reported as charging at the
  // beginning of each interval, whatever the levels.
  function ChargingTime(s: State, xs: seq<Tick>): int {
    if |xs| == 0 then 0
    else
      var k := |xs| - 1;
      var from := if k == 0 then s.changeT else xs[k - 1].now;
      ChargingTime(s, xs[..k]) + if Charging(s, xs[..k]) then xs[k].now - from else 0
  }

  // An invalid level never hides a change of the charging status.
  predicate NothingHidden(s: State, xs: seq<Tick>) {
    |xs| == 0 ||
    var k := |xs| - 1;
    NothingHidden(s, xs[..k]) && (!Valid(xs[k]) ==> xs[k].charging == Charging(s, xs[..k]))
  }

  function Now(s: State, xs: seq<Tick>): int {
    if |xs| == 0 then s.changeT else xs[|xs| - 1].now
  }

  // The time credited so far, and the part of the running interval not yet credited.
  function Accounted(s: State, xs: seq<Tick>): int {
    Elapsed(s, xs) + if Charging(s, xs) then Now(s, xs) - LastValid(xs, s.changeT) else 0
  }

  predicate Matches(s: State, xs: seq<Tick>) {
    Accounted(s, xs) == ChargingTime(s, xs)
  }

  lemma {:induction false} BucketsAreChargingTime(s: State, xs: seq<Tick>)
    requires NothingHidden(s, xs)
    ensures Matches(s, xs)
  {
    if |xs| > 0 {
      var k := |xs| - 1;
      BucketsAreChargingTime(s, xs[..k]);
      assert k > 0 ==> Now(s, xs[..k]) == xs[k - 1].now;
    }
  }

  // A skipped tick that hides a change of status after a trace that hides none shifts the
  // account by exactly the time since the last valid tick.
  lemma HiddenChangeMiscounts(s: State, xs: seq<Tick>, x: Tick)
    requires NothingHidden(s, xs) && !Valid(x) && x.charging != Charging(s, xs)
    ensures var gone := x.now - LastValid(xs, s.changeT);
            Accounted(s, xs + [x]) - ChargingTime(s, xs + [x]) == if x.charging then gone else -gone
  {
    BucketsAreChargingTime(s, xs);
    assert (xs + [x])[..|xs|] == xs;
    assert |xs| > 0 ==> Now(s, xs) == xs[|xs| - 1].now;
  }

  // The clock moves on from tick to tick, and from the state the trace starts in.
  predicate Increasing(s: State, xs: seq<Tick>) {
    |xs| == 0 ||
    var k := |xs| - 1;
    Increasing(s, xs[..k]) && Now(s, xs[..k]) < xs[k].now
  }

  lemma {:induction false} LastValidIsPast(s: State, xs: seq<Tick>)
    requires Increasing(s, xs)
    ensures LastValid(xs, s.changeT) <= Now(s, xs)
  {
    if |xs| > 0 {
      LastValidIsPast(s, xs[..|xs| - 1]);
    }
  }

  lemma {:induction false} PrefixHidesNothing(s: State, xs: seq<Tick>, k: nat)
    requires k <= |xs| && NothingHidden(s, xs)
    ensures NothingHidden(s, xs[..k])
  {
    if k < |xs| {
      PrefixHidesNothing(s, xs[..|xs| - 1], k);
      assert xs[..|xs| - 1][..k] == xs[..k];
    } else {
      assert xs[..k] == xs;
    }
  }

  // The first skipped tick that hides a change breaks the account at that very tick.
  lemma {:induction false} FirstHiddenChange(s: State, xs: seq<Tick>) returns (k: nat)
    requires Increasing(s, xs) && !NothingHidden(s, xs)
    ensures k <= |xs| && !Matches(s, xs[..k])
  {
    var n := |xs| - 1;
    if NothingHidden(s, xs[..n]) {
      HiddenChangeMiscounts(s, xs[..n], xs[n]);
      LastValidIsPast(s, xs[..n]);
      assert xs[..n] + [xs[n]] == xs == xs[..|xs|];
      k := |xs|;
    } else {
      k := FirstHiddenChange(s, xs[..n]);
      assert xs[..n][..k] == xs[..k];
    }
  }

  // The buckets account for the charging time at every point of a trace if and only if no
  // skipped tick hides a change of status.
  lemma AccountsIffNothingHidden(s: State, xs: seq<Tick>)
    requires Increasing(s, xs)
    ensures (forall k :: 0 <= k <= |xs| ==> Matches(s, xs[..k])) <==> NothingHidden(s, xs)
  {
    if NothingHidden(s, xs) {
      forall k | 0 <= k <= |xs| ensures Matches(s, xs[..k]) {
        PrefixHidesNothing(s, xs, k);
        BucketsAreChargingTime(s, xs[..k]);
      }
    } else {
      var k := FirstHiddenChange(s, xs);
    }
  }

  class CoolDownTracker {
    const times: array<int>
    var status: int
    var changeT: int
    var effectCnt: int
    var wasCharging: bool

    ghost function View(): State
      reads this, times
    {
      State(times[..], status, changeT, effectCnt, wasCharging)
    }

    constructor (charging: bool)
      ensures fresh(times) && times.Length == LEVELS
      ensures View() == State(seq(LEVELS, _ => 0), 0, 0, 0, charging)
    {
      times := new int[LEVELS](_ => 0);
      status, changeT, effectCnt, wasCharging := 0, 0, 0, charging;
      new;
      assert times[..] == seq(LEVELS, _ => 0);
    }

    method Account(x: Tick) returns (ok: bool)
      requires times.Length == LEVELS
      modifies this, times
      ensures View() == Step(old(View()), x)
      ensures ok <==> Valid(x)
    {
      ok := Tally(x);
      wasCharging := x.charging;
    }

    // The function itself.
    method Tally(x: Tick) returns (ok: bool)
      requires times.Length == LEVELS
      modifies this, times
      ensures View() == Step(old(View()), x).(wasCharging := old(wasCharging))
      ensures ok <==> Valid(x)
    {
      if x.level > times.Length - 1 || x.level < 0 {
        return false;
      }
      if x.charging && x.level != 0 {
        effectCnt := effectCnt + 1;
      }
      if !wasCharging {
        status, changeT := x.level, x.now;
        return true;
      }
      if status != x.level {
        times[x.level] := times[x.level] + (x.now - changeT);
      } else {
        times[status] := times[status] + (x.now - changeT);
      }
      status, changeT := x.level, x.now;
      return true;
    }
  }
}
