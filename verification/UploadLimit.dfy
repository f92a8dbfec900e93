// The upload limiter of oplus_chg_track.c, as used by the gauge reports and by the
// report works: a counter that is reset when the last upload is long ago.
module UploadLimit {

  datatype Limit = Limit(period: nat, countMax: nat)

  const TRACK_GAUGE := Limit(24 * 3600, 10)
  const TRACK_SOFT := Limit(24 * 3600, 10)
  const TRACK_SOFT_SOH := Limit(24 * 3600, 50)

  datatype State = State(uploadCount: int, preUploadTime: int)

  // One call: the time of the check, the time stored with an upload (the same reading in
  // the gauge report, a second one in the works), and whether something else prevents the
  // upload, such as one that is still running.
  datatype Attempt = Attempt(check: int, stamp: int, busy: bool)

  function Counted(l: Limit, s: State, a: Attempt): int {
    if a.check - s.preUploadTime > l.period then 0 else s.uploadCount
  }

  predicate Uploads(l: Limit, s: State, a: Attempt) {
    Counted(l, s, a) <= l.countMax && !a.busy
  }

  function Step(l: Limit, s: State, a: Attempt): State {
    if Uploads(l, s, a) then State(Counted(l, s, a) + 1, a.stamp)
    else s.(uploadCount := Counted(l, s, a))
  }

  function Run(l: Limit, s: State, xs: seq<Attempt>): State {
    if |xs| == 0 then s else Step(l, Run(l, s, xs[..|xs| - 1]), xs[|xs| - 1])
  }

  // The clock does not go back.
  ghost predicate Ordered(xs: seq<Attempt>) {
    && (forall i :: 0 <= i < |xs| ==> xs[i].check <= xs[i].stamp)
    && (forall i, j :: 0 <= i < j < |xs| ==> xs[i].stamp <= xs[j].check)
  }

  // Uploads of a trace whose stored time lies in the window [lo, lo + period].
  function InWindow(l: Limit, s: State, xs: seq<Attempt>, lo: int): nat {
    if |xs| == 0 then 0
    else
      var k := |xs| - 1;
      InWindow(l, s, xs[..k], lo) +
      if Uploads(l, Run(l, s, xs[..k]), xs[k]) && lo <= xs[k].stamp <= lo + l.period then 1 else 0
  }

  // The counter covers the uploads of the window while the window lasts.
  lemma {:induction false} CounterCoversWindow(l: Limit, s: State, xs: seq<Attempt>, lo: int)
    requires s.uploadCount >= 0 && Ordered(xs)
    ensures var r := Run(l, s, xs); var n := InWindow(l, s, xs, lo);
            && n <= l.countMax + 1
            && r.uploadCount >= 0
            && (n > 0 ==> lo <= r.preUploadTime <= xs[|xs| - 1].stamp && lo <= xs[|xs| - 1].stamp)
            && (n > 0 && xs[|xs| - 1].stamp <= lo + l.period ==> r.uploadCount >= n)
  {
    if |xs| > 0 {
      var k := |xs| - 1;
      assert Ordered(xs[..k]);
      CounterCoversWindow(l, s, xs[..k], lo);
      if k > 0 {
        assert xs[..k][k - 1] == xs[k - 1] && xs[k - 1].stamp <= xs[k].check;
      }
    }
  }

  // Whatever the attempts, and although the counter is reset by the time since the last
  // upload and not by a window, no window of one period holds more than countMax + 1.
  lemma WindowIsLimited(l: Limit, s: State, xs: seq<Attempt>, lo: int)
    requires s.uploadCount >= 0 && Ordered(xs)
    ensures InWindow(l, s, xs, lo) <= l.countMax + 1
  {
    CounterCoversWindow(l, s, xs, lo);
  }

  // In any 24 hours each gauge uploads at most 11 reports; so does each work for software
  // errors, and each work for the state of health at most 51.
  lemma DailyUploads(s: State, xs: seq<Attempt>, lo: int)
    requires s.uploadCount >= 0 && Ordered(xs)
    ensures InWindow(TRACK_GAUGE, s, xs, lo) <= 11
    ensures InWindow(TRACK_SOFT, s, xs, lo) <= 11
    ensures InWindow(TRACK_SOFT_SOH, s, xs, lo) <= 51
  {
    WindowIsLimited(TRACK_GAUGE, s, xs, lo);
    WindowIsLimited(TRACK_SOFT, s, xs, lo);
    WindowIsLimited(TRACK_SOFT_SOH, s, xs, lo);
  }

  // The bound is reached: of a burst of attempts at one time, countMax + 1 get through.
  lemma {:induction false} BurstReachesLimit(l: Limit, t: int, n: nat)
    ensures var xs := seq(n, _ => Attempt(t, t, false)); var s := State(0, t);
            && Run(l, s, xs) == State(if n <= l.countMax then n else l.countMax + 1, t)
            && InWindow(l, s, xs, t) == (if n <= l.countMax then n else l.countMax + 1)
  {
    if n > 0 {
      BurstReachesLimit(l, t, n - 1);
      var xs := seq(n, _ => Attempt(t, t, false));
      assert xs[..n - 1] == seq(n - 1, _ => Attempt(t, t, false));
      assert xs[n - 1] == Attempt(t, t, false);
    }
  }

  // ------------------------------------------------------------------ the limiter lets go

  // An idle attempt more than one period after the stored time goes through, whatever the
  // count, and starts it afresh.
  lemma GapReopens(l: Limit, s: State, a: Attempt)
    requires a.check - s.preUploadTime > l.period && !a.busy
    ensures Uploads(l, s, a) && Run(l, s, [a]) == State(1, a.stamp)
  {
    assert [a][..0] == [];
  }

  // When the last upload of a trace was stored.
  function LastUpload(l: Limit, s: State, xs: seq<Attempt>): int {
    if |xs| == 0 then s.preUploadTime
    else
      var k := |xs| - 1;
      if Uploads(l, Run(l, s, xs[..k]), xs[k]) then xs[k].stamp else LastUpload(l, s, xs[..k])
  }

  // How many uploads have gone through since an attempt last came more than one period
  // after the upload before it.
  function SinceGap(l: Limit, s: State, xs: seq<Attempt>): int {
    if |xs| == 0 then s.uploadCount
    else
      var k := |xs| - 1;
      (if xs[k].check - LastUpload(l, s, xs[..k]) > l.period then 0 else SinceGap(l, s, xs[..k])) +
      (if Uploads(l, Run(l, s, xs[..k]), xs[k]) then 1 else 0)
  }

  lemma {:induction false} CounterIsSinceGap(l: Limit, s: State, xs: seq<Attempt>)
    ensures Run(l, s, xs) == State(SinceGap(l, s, xs), LastUpload(l, s, xs))
  {
    if |xs| > 0 {
      CounterIsSinceGap(l, s, xs[..|xs| - 1]);
    }
  }

  // After any trace an attempt is refused if and only if something else prevents it, or
  // countMax + 1 uploads have gone through since the last gap and it does not end one.
  lemma RefusedIffLimited(l: Limit, s: State, xs: seq<Attempt>, x: Attempt)
    requires s.uploadCount <= l.countMax + 1
    ensures SinceGap(l, s, xs) <= l.countMax + 1
    ensures !Uploads(l, Run(l, s, xs), x) <==>
            x.busy || (SinceGap(l, s, xs) == l.countMax + 1 && x.check - LastUpload(l, s, xs) <= l.period)
  {
    CounterIsSinceGap(l, s, xs);
    CountIsLimited(l, s, xs);
  }

  lemma {:induction false} CountIsLimited(l: Limit, s: State, xs: seq<Attempt>)
    requires s.uploadCount <= l.countMax + 1
    ensures Run(l, s, xs).uploadCount <= l.countMax + 1
  {
    if |xs| > 0 {
      CountIsLimited(l, s, xs[..|xs| - 1]);
    }
  }

  class Limiter {
    const limit: Limit
    var uploadCount: int
    var preUploadTime: int

    function View(): State
      reads this
    {
      State(uploadCount, preUploadTime)
    }

    constructor (limit: Limit)
      ensures this.limit == limit && View() == State(0, 0)
    {
      this.limit, uploadCount, preUploadTime := limit, 0, 0;
    }

    method TryUpload(a: Attempt) returns (uploaded: bool)
      modifies this
      ensures View() == Step(limit, old(View()), a)
      ensures uploaded == Uploads(limit, old(View()), a)
    {
      if a.check - preUploadTime > limit.period {
        uploadCount := 0;
      }
      if uploadCount > limit.countMax {
        return false;
      }
      if a.busy {
        return false;
      }
      uploadCount := uploadCount + 1;
      preUploadTime := a.stamp;
      return true;
    }
  }
}
