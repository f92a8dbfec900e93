// The self-adjusting temperature thresholds of oplus_chg_comm.c. The battery table
// (8 thresholds, 9 regions) and the FFC table (3 thresholds, 4 regions) follow the same
// scheme, so the definitions are over a table of any length.
module Hysteresis {
  import opened Common

  const BATT_TEMP_HYST := 20

  // The configured table never changes; `dyn` is compared with the temperature.
  datatype Thresholds = Thresholds(dyn: seq<int>, region: nat)

  // BATT_TEMP_INVALID and FFC_TEMP_INVALID.
  function Invalid(cfg: seq<int>): nat {
    |cfg| + 1
  }

  function RegionFrom(dyn: seq<int>, temp: int, i: nat): (r: nat)
    requires i <= |dyn|
    ensures i <= r <= |dyn|
    ensures forall j :: i <= j < r ==> dyn[j] <= temp
    ensures r < |dyn| ==> temp < dyn[r]
    decreases |dyn| - i
  {
    if i == |dyn| || temp < dyn[i] then i else RegionFrom(dyn, temp, i + 1)
  }

  // The region of a temperature: the first threshold above it.
  function RegionOf(dyn: seq<int>, temp: int): (r: nat)
    ensures r <= |dyn|
    ensures forall j :: 0 <= j < r ==> dyn[j] <= temp
    ensures r < |dyn| ==> temp < dyn[r]
  {
    RegionFrom(dyn, temp, 0)
  }

  // The table after the region has moved from `from` to `to`: the threshold just crossed
  // is shifted away from the temperature, every other one is restored.
  function Shifted(cfg: seq<int>, dyn: seq<int>, from: nat, to: nat): (r: seq<int>)
    requires |dyn| == |cfg|
    ensures |r| == |cfg|
  {
    seq(|cfg|, i requires 0 <= i < |cfg| =>
      if to < from && i == to then dyn[i] + BATT_TEMP_HYST
      else if from < to && i == to - 1 then dyn[i] - BATT_TEMP_HYST
      else cfg[i])
  }

  // Move to region `to`.
  function Moved(cfg: seq<int>, h: Thresholds, to: nat): (h': Thresholds)
    requires |h.dyn| == |cfg|
    ensures |h'.dyn| == |cfg|
  {
    if to == h.region then h else Thresholds(Shifted(cfg, h.dyn, h.region, to), to)
  }

  // One evaluation by the battery table, which adopts the first region it sees, and one
  // by the FFC table, which does not.
  function BattStep(cfg: seq<int>, h: Thresholds, temp: int): (h': Thresholds)
    requires |h.dyn| == |cfg|
    ensures |h'.dyn| == |cfg|
  {
    var to := RegionOf(h.dyn, temp);
    Moved(cfg, if h.region == Invalid(cfg) then h.(region := to) else h, to)
  }

  function FfcStep(cfg: seq<int>, h: Thresholds, temp: int): (h': Thresholds)
    requires |h.dyn| == |cfg|
    ensures |h'.dyn| == |cfg|
  {
    Moved(cfg, h, RegionOf(h.dyn, temp))
  }

  function Fresh(cfg: seq<int>): Thresholds {
    Thresholds(cfg, Invalid(cfg))
  }

  // ------------------------------------------------------------- the shift invariant

  // At most one threshold differs from its configured value: the upper bound of the
  // current region may be raised by the hysteresis, or its lower bound lowered by it.
  ghost predicate OneShift(cfg: seq<int>, h: Thresholds) {
    && |h.dyn| == |cfg|
    && (forall i :: 0 <= i < |cfg| && i != h.region && i + 1 != h.region ==> h.dyn[i] == cfg[i])
    && (h.region < |cfg| ==> h.dyn[h.region] == cfg[h.region] || h.dyn[h.region] == cfg[h.region] + BATT_TEMP_HYST)
    && (0 < h.region <= |cfg| ==>
          h.dyn[h.region - 1] == cfg[h.region - 1] || h.dyn[h.region - 1] == cfg[h.region - 1] - BATT_TEMP_HYST)
    && (0 < h.region < |cfg| ==> h.dyn[h.region] == cfg[h.region] || h.dyn[h.region - 1] == cfg[h.region - 1])
    && (h.region > |cfg| ==> h.dyn == cfg)
  }

  // Shifts never accumulate, whatever the table and the temperature.
  lemma MoveKeepsOneShift(cfg: seq<int>, h: Thresholds, to: nat)
    requires OneShift(cfg, h) && to <= |cfg|
    ensures OneShift(cfg, Moved(cfg, h, to))
  {
  }

  predicate Ascending(cfg: seq<int>) {
    forall i, j :: 0 <= i < j < |cfg| ==> cfg[i] <= cfg[j]
  }

  // Evaluating the same temperature again after an update confirms the region.
  lemma MoveIsStable(cfg: seq<int>, h: Thresholds, temp: int)
    requires OneShift(cfg, h) && Ascending(cfg)
    ensures var h' := Moved(cfg, h, RegionOf(h.dyn, temp)); RegionOf(h'.dyn, temp) == h'.region
  {
    var to := RegionOf(h.dyn, temp);
    var h' := Moved(cfg, h, to);
    if to > h.region {
      assert cfg[to - 1] <= h.dyn[to - 1] <= temp;
      assert forall j :: 0 <= j < to ==> h'.dyn[j] <= temp;
    } else if to < h.region {
      assert forall j :: 0 <= j < to ==> h'.dyn[j] == cfg[j] == h.dyn[j];
    }
    RegionIs(h'.dyn, temp, to);
  }

  lemma RegionIs(dyn: seq<int>, temp: int, k: nat)
    requires k <= |dyn| && (forall j :: 0 <= j < k ==> dyn[j] <= temp) && (k < |dyn| ==> temp < dyn[k])
    ensures RegionOf(dyn, temp) == k
  {
  }

  // Both tables, over any trace of temperatures from status init.
  function Trace(cfg: seq<int>, batt: bool, temps: seq<int>): (h: Thresholds)
    ensures |h.dyn| == |cfg|
  {
    if |temps| == 0 then Fresh(cfg)
    else
      var h := Trace(cfg, batt, temps[..|temps| - 1]);
      var temp := temps[|temps| - 1];
      if batt then BattStep(cfg, h, temp) else FfcStep(cfg, h, temp)
  }

  lemma {:induction false} TraceKeepsOneShift(cfg: seq<int>, batt: bool, temps: seq<int>)
    ensures var h := Trace(cfg, batt, temps);
            && OneShift(cfg, h)
            && (|temps| > 0 ==> h.region <= |cfg|)
            && (|temps| > 0 && Ascending(cfg) ==> RegionOf(h.dyn, temps[|temps| - 1]) == h.region)
  {
    if |temps| > 0 {
      var k := |temps| - 1;
      TraceKeepsOneShift(cfg, batt, temps[..k]);
      var h := Trace(cfg, batt, temps[..k]);
      var to := RegionOf(h.dyn, temps[k]);
      var h0 := if batt && h.region == Invalid(cfg) then h.(region := to) else h;
      MoveKeepsOneShift(cfg, h0, to);
      if Ascending(cfg) {
        MoveIsStable(cfg, h0, temps[k]);
      }
    }
  }

  // The first evaluation after status init: the battery table adopts the region and stays
  // as configured; the FFC table comes from above and raises the threshold over it.
  lemma FirstEvaluation(cfg: seq<int>, temp: int)
    ensures var k := RegionOf(cfg, temp);
            && BattStep(cfg, Fresh(cfg), temp) == Thresholds(cfg, k)
            && FfcStep(cfg, Fresh(cfg), temp) == Thresholds(if k < |cfg| then cfg[k := cfg[k] + 20] else cfg, k)
  {
  }

  // Crossing a threshold upwards and then back leaves it as it was, and restores every
  // other one.
  lemma RoundTripRestores(cfg: seq<int>, h: Thresholds)
    requires OneShift(cfg, h) && h.region < |cfg|
    ensures var up := Moved(cfg, h, h.region + 1);
            && up.dyn[h.region] == h.dyn[h.region] - 20
            && Moved(cfg, up, h.region) == Thresholds(cfg[h.region := h.dyn[h.region]], h.region)
  {
  }

  // And the same the other way.
  lemma RoundTripDown(cfg: seq<int>, h: Thresholds)
    requires OneShift(cfg, h) && 0 < h.region <= |cfg|
    ensures var g := h.region - 1; var down := Moved(cfg, h, g);
            && down.dyn[g] == h.dyn[g] + 20
            && Moved(cfg, down, h.region) == Thresholds(cfg[g := h.dyn[g]], h.region)
  {
  }

  // ----------------------------------------------------- swings between region changes

  datatype Direction = Up | Down

  // Neighbouring thresholds are at least `gap` apart.
  predicate Gaps(cfg: seq<int>, gap: int) {
    forall i :: 0 < i < |cfg| ==> cfg[i - 1] + gap <= cfg[i]
  }

  lemma {:induction false} GapsAreMonotone(cfg: seq<int>, gap: nat, i: nat, j: nat)
    requires Gaps(cfg, gap) && i < j < |cfg|
    ensures cfg[i] + gap <= cfg[j]
    decreases j
  {
    if i < j - 1 {
      GapsAreMonotone(cfg, gap, i, j - 1);
    }
    assert cfg[j - 1] + gap <= cfg[j];
  }

  // What the last region change, at temperature `turn`, leaves behind: a change in the
  // other direction needs a temperature more than the hysteresis away from `turn`.
  ghost predicate Guarded(cfg: seq<int>, h: Thresholds, dir: Direction, turn: int) {
    && OneShift(cfg, h)
    && h.region <= |cfg|
    && match dir
       case Up => h.region > 0 && (forall r :: 0 <= r < h.region ==> h.dyn[r] + BATT_TEMP_HYST <= turn)
       case Down => h.region < |cfg| && turn + BATT_TEMP_HYST < h.dyn[h.region]
  }

  lemma MoveGuards(cfg: seq<int>, h: Thresholds, temp: int)
    requires OneShift(cfg, h) && h.region <= |cfg| && Gaps(cfg, BATT_TEMP_HYST)
    requires RegionOf(h.dyn, temp) != h.region
    ensures var to := RegionOf(h.dyn, temp);
            Guarded(cfg, Moved(cfg, h, to), if to > h.region then Up else Down, temp)
  {
    var to := RegionOf(h.dyn, temp);
    MoveKeepsOneShift(cfg, h, to);
    if to > h.region {
      var h' := Moved(cfg, h, to);
      forall r | 0 <= r < to ensures h'.dyn[r] + BATT_TEMP_HYST <= temp {
        if r < to - 1 {
          GapsAreMonotone(cfg, BATT_TEMP_HYST, r, to - 1);
        }
      }
    }
  }

  // A reversal swings the temperature by more than the hysteresis since the last change.
  lemma ReversalSwings(cfg: seq<int>, h: Thresholds, dir: Direction, turn: int, temp: int)
    requires Guarded(cfg, h, dir, turn)
    requires var to := RegionOf(h.dyn, temp); if dir.Up? then to < h.region else to > h.region
    ensures Abs(temp - turn) > BATT_TEMP_HYST
  {
  }

  // ------------------------------------------------------------- a whole trace

  // A trace of the battery region: where it stands, which way and at which temperature
  // it moved last, how often it turned back, and how far the temperature has travelled in
  // all and up to the last move. Every sample is a heartbeat; `evaluated` is false on
  // those that return early because an FFC session is running.
  datatype Sample = Sample(temp: int, evaluated: bool)
  datatype History = History(
    h: Thresholds, dir: Option<Direction>, turn: int, reversals: nat, travelled: nat, travelledAtTurn: nat)

  function Record(cfg: seq<int>, s: History, prev: int, x: Sample): History
    requires |s.h.dyn| == |cfg|
  {
    var travelled := s.travelled + Abs(x.temp - prev);
    var h := if x.evaluated then BattStep(cfg, s.h, x.temp) else s.h;
    if h.region == s.h.region || s.h.region == Invalid(cfg) then s.(h := h, travelled := travelled)
    else
      var dir := if h.region > s.h.region then Up else Down;
      History(h, Some(dir), x.temp, s.reversals + (if s.dir.Some? && s.dir.value != dir then 1 else 0),
              travelled, travelled)
  }

  function Observe(cfg: seq<int>, xs: seq<Sample>): (s: History)
    ensures |s.h.dyn| == |cfg|
  {
    if |xs| == 0 then History(Fresh(cfg), None, 0, 0, 0, 0)
    else
      var k := |xs| - 1;
      Record(cfg, Observe(cfg, xs[..k]), if k == 0 then xs[k].temp else xs[k - 1].temp, xs[k])
  }

  function TotalVariation(xs: seq<Sample>): nat {
    if |xs| <= 1 then 0
    else TotalVariation(xs[..|xs| - 1]) + Abs(xs[|xs| - 1].temp - xs[|xs| - 2].temp)
  }

  ghost predicate Consistent(cfg: seq<int>, s: History, now: int) {
    && OneShift(cfg, s.h)
    && (s.h.region <= |cfg| || (s.h == Fresh(cfg) && s.dir.None?))
    && (s.dir.Some? ==>
          && Guarded(cfg, s.h, s.dir.value, s.turn)
          && Abs(now - s.turn) <= s.travelled - s.travelledAtTurn)
    && (s.dir.None? ==> s.reversals == 0)
    && (BATT_TEMP_HYST + 1) * s.reversals <= s.travelledAtTurn <= s.travelled
  }

  lemma RecordIsConsistent(cfg: seq<int>, s: History, prev: int, x: Sample)
    requires Gaps(cfg, BATT_TEMP_HYST) && Consistent(cfg, s, prev)
    ensures Consistent(cfg, Record(cfg, s, prev, x), x.temp)
  {
    var to := RegionOf(s.h.dyn, x.temp);
    if x.evaluated && s.h.region == Invalid(cfg) {
      MoveKeepsOneShift(cfg, s.h.(region := to), to);
    } else if x.evaluated && to != s.h.region {
      MoveGuards(cfg, s.h, x.temp);
      if s.dir.Some? && s.dir.value != (if to > s.h.region then Up else Down) {
        ReversalSwings(cfg, s.h, s.dir.value, s.turn, x.temp);
      }
    }
  }

  function Last(xs: seq<Sample>): int {
    if |xs| == 0 then 0 else xs[|xs| - 1].temp
  }

  lemma {:induction false} ObserveIsConsistent(cfg: seq<int>, xs: seq<Sample>)
    requires Gaps(cfg, BATT_TEMP_HYST)
    ensures Consistent(cfg, Observe(cfg, xs), Last(xs))
  {
    if |xs| > 0 {
      var k := |xs| - 1;
      var s := Observe(cfg, xs[..k]);
      ObserveIsConsistent(cfg, xs[..k]);
      var prev := if k == 0 then xs[k].temp else xs[k - 1].temp;
      assert k > 0 ==> prev == Last(xs[..k]);
      assert Consistent(cfg, s, prev);
      RecordIsConsistent(cfg, s, prev, xs[k]);
    }
  }

  lemma {:induction false} TravelIsTotalVariation(cfg: seq<int>, xs: seq<Sample>)
    ensures Observe(cfg, xs).travelled == TotalVariation(xs)
  {
    if |xs| > 0 {
      TravelIsTotalVariation(cfg, xs[..|xs| - 1]);
    }
  }

  // Over any trace, the temperature travels at least 21 units per reversal of the region.
  lemma ReversalsBoundedByTravel(cfg: seq<int>, xs: seq<Sample>)
    requires Gaps(cfg, BATT_TEMP_HYST)
    ensures (BATT_TEMP_HYST + 1) * Observe(cfg, xs).reversals <= TotalVariation(xs)
  {
    ObserveIsConsistent(cfg, xs);
    TravelIsTotalVariation(cfg, xs);
  }

  // ------------------------------------------------------- exactly which tables protect

  // If sample `x` after trace `xs` turns the region back, the temperature has swung by
  // more than the hysteresis since the last change.
  predicate SwingsAt(cfg: seq<int>, xs: seq<Sample>, x: Sample) {
    Observe(cfg, xs + [x]).reversals > Observe(cfg, xs).reversals ==>
      Abs(x.temp - Observe(cfg, xs).turn) > BATT_TEMP_HYST
  }

  ghost predicate Protects(cfg: seq<int>) {
    forall xs, x :: SwingsAt(cfg, xs, x)
  }

  lemma ObserveNext(cfg: seq<int>, xs: seq<Sample>, x: Sample)
    ensures Observe(cfg, xs + [x]) == Record(cfg, Observe(cfg, xs), if |xs| == 0 then x.temp else Last(xs), x)
  {
    assert (xs + [x])[..|xs|] == xs;
  }

  lemma RecordedReversalSwings(cfg: seq<int>, s: History, now: int, prev: int, x: Sample)
    requires Consistent(cfg, s, now) && Record(cfg, s, prev, x).reversals > s.reversals
    ensures Abs(x.temp - s.turn) > BATT_TEMP_HYST
  {
    ReversalSwings(cfg, s.h, s.dir.value, s.turn, x.temp);
  }

  lemma ReversalProtected(cfg: seq<int>, xs: seq<Sample>, x: Sample)
    requires Gaps(cfg, BATT_TEMP_HYST)
    ensures SwingsAt(cfg, xs, x)
  {
    var prev := if |xs| == 0 then x.temp else Last(xs);
    ObserveNext(cfg, xs, x);
    ObserveIsConsistent(cfg, xs);
    if Record(cfg, Observe(cfg, xs), prev, x).reversals > Observe(cfg, xs).reversals {
      RecordedReversalSwings(cfg, Observe(cfg, xs), Last(xs), prev, x);
    }
  }

  // From region `from` up to region `up`, then down to region `down`: one reversal.
  lemma UpThenDown(cfg: seq<int>, from: nat, up: nat, down: nat, t0: int, t1: int, t2: int)
    requires RegionOf(cfg, t0) == from < RegionOf(cfg, t1) == up <= |cfg|
    requires RegionOf(Shifted(cfg, cfg, from, up), t2) == down < up && Abs(t2 - t1) <= BATT_TEMP_HYST
    ensures var xs := [Sample(t0, true), Sample(t1, true)]; var x := Sample(t2, true);
            !SwingsAt(cfg, xs, x)
  {
    var a, b, c := Sample(t0, true), Sample(t1, true), Sample(t2, true);
    ObserveNext(cfg, [], a);
    ObserveNext(cfg, [a], b);
    ObserveNext(cfg, [a, b], c);
    assert [] + [a] == [a] && [a] + [b] == [a, b];
    assert Observe(cfg, [a]).h == Thresholds(cfg, from) && Observe(cfg, [a]).dir == None;
    assert Observe(cfg, [a, b]).h == Thresholds(Shifted(cfg, cfg, from, up), up);
  }

  // Below the first narrow gap the table ascends in wide steps. Jump to the higher end of
  // the gap, then fall just below its lower threshold.
  lemma NarrowGapFlips(cfg: seq<int>, k: nat)
    requires 0 < k < |cfg| && Gaps(cfg[..k], BATT_TEMP_HYST) && cfg[k] < cfg[k - 1] + BATT_TEMP_HYST
    ensures !Protects(cfg)
  {
    forall j | 0 <= j < k - 1 ensures cfg[j] + BATT_TEMP_HYST <= cfg[k - 1] {
      GapsAreMonotone(cfg[..k], BATT_TEMP_HYST, j, k - 1);
    }
    var t1 := if cfg[k - 1] < cfg[k] then cfg[k] else cfg[k - 1];
    RegionIs(cfg, cfg[0] - 1, 0);
    var up := RegionOf(cfg, t1);
    assert up > k by {
      assert up < |cfg| ==> t1 < cfg[up];
    }
    var dyn := Shifted(cfg, cfg, 0, up);
    assert forall j :: 0 <= j < k ==> dyn[j] == cfg[j];
    RegionIs(dyn, cfg[k - 1] - 1, k - 1);
    UpThenDown(cfg, 0, up, k - 1, cfg[0] - 1, t1, cfg[k - 1] - 1);
  }

  lemma {:induction false} FirstNarrowGap(cfg: seq<int>) returns (k: nat)
    requires !Gaps(cfg, BATT_TEMP_HYST)
    ensures 0 < k < |cfg| && Gaps(cfg[..k], BATT_TEMP_HYST) && cfg[k] < cfg[k - 1] + BATT_TEMP_HYST
  {
    var n := |cfg| - 1;
    if Gaps(cfg[..n], BATT_TEMP_HYST) {
      k := n;
      assert forall i :: 0 < i < n ==> cfg[..n][i - 1] + BATT_TEMP_HYST <= cfg[..n][i];
    } else {
      k := FirstNarrowGap(cfg[..n]);
      assert cfg[..n][..k] == cfg[..k];
    }
  }

  // A table, ascending or not, protects against every quick reversal if and only if each
  // threshold is at least the hysteresis above the one before it.
  lemma ProtectsIffGaps(cfg: seq<int>)
    ensures Protects(cfg) <==> Gaps(cfg, BATT_TEMP_HYST)
  {
    if Gaps(cfg, BATT_TEMP_HYST) {
      forall xs, x ensures SwingsAt(cfg, xs, x) {
        ReversalProtected(cfg, xs, x);
      }
    } else {
      var k := FirstNarrowGap(cfg);
      NarrowGapFlips(cfg, k);
    }
  }

  // The built-in default table gives seven of the eight thresholds, so the last is 0: at
  // its upper end one unit of temperature is enough to turn the region back.
  const DEFAULT_BATT_TEMP_THR := [-20, 0, 50, 120, 160, 450, 500, 0]

  lemma DefaultTableRegions()
    ensures RegionOf(DEFAULT_BATT_TEMP_THR, 460) == 6 && RegionOf(DEFAULT_BATT_TEMP_THR, 500) == 8
    ensures RegionOf(Shifted(DEFAULT_BATT_TEMP_THR, DEFAULT_BATT_TEMP_THR, 6, 8), 499) == 6
  {
    var cfg := DEFAULT_BATT_TEMP_THR;
    RegionIs(cfg, 460, 6);
    RegionIs(cfg, 500, 8);
    var dyn := Shifted(cfg, cfg, 6, 8);
    assert forall j :: 0 <= j < 7 ==> dyn[j] == cfg[j];
    RegionIs(dyn, 499, 6);
  }

  lemma DefaultTableFlips()
    ensures !SwingsAt(DEFAULT_BATT_TEMP_THR, [Sample(460, true), Sample(500, true)], Sample(499, true))
    ensures !Gaps(DEFAULT_BATT_TEMP_THR, BATT_TEMP_HYST) && !Protects(DEFAULT_BATT_TEMP_THR)
  {
    var cfg := DEFAULT_BATT_TEMP_THR;
    DefaultTableRegions();
    UpThenDown(cfg, 6, 8, 6, 460, 500, 499);
    ProtectsIffGaps(cfg);
    assert cfg[6] + BATT_TEMP_HYST > cfg[7];
  }
}
