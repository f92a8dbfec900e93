// Debounced detection of a full battery: oplus_chg_comm_check_batt_full_by_sw.
module BatteryFull {
  import opened Common
  import opened CommConfig

  const FULL_COUNTS_SW := 5
  const FULL_COUNTS_HW := 3

  // Readings of one call. `ffcIdle` says that no FFC session runs, `online` that a wired
  // or wireless charger is.
  datatype Sample = Sample(ffcIdle: bool, online: bool, region: nat, vbatMv: int, ibatMa: int, decCv: int)

  // The four statics of the function.
  datatype State = State(retSw: bool, retHw: bool, countsSw: int, countsHw: int)

  const INITIAL := State(false, false, 0, 0)

  // Calls that return before looking at anything, calls that reset the statics, and calls
  // that evaluate the sample.
  predicate Ignored(cfg: Config, x: Sample) {
    !cfg.checkBattFullBySw || !x.ffcIdle
  }

  predicate Resets(cfg: Config, x: Sample) {
    !Ignored(cfg, x) && (!x.online || !(BATT_TEMP_COLD <= x.region <= BATT_TEMP_WARM))
  }

  predicate Evaluated(cfg: Config, x: Sample) {
    !Ignored(cfg, x) && x.online && BATT_TEMP_COLD <= x.region <= BATT_TEMP_WARM
  }

  function TermCurrent(cfg: Config, x: Sample): int {
    if cfg.littleColdItermMa > 0 && x.region == BATT_TEMP_LITTLE_COLD then cfg.littleColdItermMa else cfg.swItermMa
  }

  // Above the software float voltage, with a small charging current or none at all.
  predicate QualifiesSw(cfg: Config, x: Sample)
    requires cfg.Shaped()
  {
    && Evaluated(cfg, x)
    && x.vbatMv > cfg.vbatmaxMv[x.region] - cfg.fvOffsetVoltageMv - x.decCv
    && (x.ibatMa >= 0 || Abs(x.ibatMa) <= TermCurrent(cfg, x))
  }

  predicate QualifiesHw(cfg: Config, x: Sample)
    requires cfg.Shaped()
  {
    Evaluated(cfg, x) && x.vbatMv >= cfg.vbatmaxMv[x.region] + 18 - x.decCv
  }

  // The count that a software report must exceed.
  function LimitSw(cfg: Config, x: Sample): int {
    if x.ibatMa < 0 then FULL_COUNTS_SW * cfg.fullCountSwNum else FULL_COUNTS_SW * 2
  }

  function Step(cfg: Config, s: State, x: Sample): (State, bool)
    requires cfg.Shaped()
  {
    if Ignored(cfg, x) then (s, false)
    else if Resets(cfg, x) then (INITIAL, false)
    else
      var firesSw := QualifiesSw(cfg, x) && s.countsSw + 1 > LimitSw(cfg, x);
      var firesHw := QualifiesHw(cfg, x) && s.countsHw + 1 >= FULL_COUNTS_HW;
      var countsSw := if QualifiesSw(cfg, x) && !firesSw then s.countsSw + 1 else 0;
      var countsHw := if QualifiesHw(cfg, x) && !firesHw then s.countsHw + 1 else 0;
      var retSw := if QualifiesSw(cfg, x) then s.retSw || firesSw else false;
      var retHw := if QualifiesHw(cfg, x) then s.retHw || firesHw else false;
      if retSw || retHw then (State(false, false, countsSw, countsHw), true)
      else (State(false, false, countsSw, countsHw), false)
  }

  function Run(cfg: Config, xs: seq<Sample>): State
    requires cfg.Shaped()
  {
    if |xs| == 0 then INITIAL else Step(cfg, Run(cfg, xs[..|xs| - 1]), xs[|xs| - 1]).0
  }

  // ------------------------------------------------------------- the history predicate

  // The software and the hardware criterion are debounced in the same way.
  datatype Criterion = Sw | Hw

  predicate Qualifies(cfg: Config, c: Criterion, x: Sample)
    requires cfg.Shaped()
  {
    && Looks(cfg, x) && x.online && 1 <= x.region <= 7
    && match c
       case Sw =>
         && x.vbatMv > cfg.vbatmaxMv[x.region] - cfg.fvOffsetVoltageMv - x.decCv
         && (x.ibatMa >= 0 || -x.ibatMa <= Termination(cfg, x.region))
       case Hw => x.vbatMv >= cfg.vbatmaxMv[x.region] + 18 - x.decCv
  }

  // The function is switched on, and no FFC session runs.
  predicate Looks(cfg: Config, x: Sample) {
    cfg.checkBattFullBySw && x.ffcIdle
  }

  // The current below which charging ends; region 2, a little cold, may have its own.
  function Termination(cfg: Config, region: nat): int {
    if region == 2 && cfg.littleColdItermMa > 0 then cfg.littleColdItermMa else cfg.swItermMa
  }

  predicate Breaks(cfg: Config, c: Criterion, x: Sample)
    requires cfg.Shaped()
  {
    Looks(cfg, x) && !Qualifies(cfg, c, x)
  }

  // How many qualifying samples make a report. It is the sample that completes the run
  // whose current decides.
  function Enough(cfg: Config, c: Criterion, x: Sample): int {
    match c
    case Sw => if x.ibatMa < 0 then 5 * cfg.fullCountSwNum + 1 else 11
    case Hw => 3
  }

  function Qualifying(cfg: Config, c: Criterion, xs: seq<Sample>): nat
    requires cfg.Shaped()
  {
    if |xs| == 0 then 0
    else Qualifying(cfg, c, xs[..|xs| - 1]) + if Qualifies(cfg, c, xs[|xs| - 1]) then 1 else 0
  }

  // Where the current run of qualifying samples starts: after the last break or report.
  function Start(cfg: Config, c: Criterion, xs: seq<Sample>): (r: nat)
    requires cfg.Shaped()
    ensures r <= |xs|
    decreases |xs|, 1
  {
    if |xs| == 0 then 0
    else if Breaks(cfg, c, xs[|xs| - 1]) || Reported(cfg, c, xs) then |xs|
    else Start(cfg, c, xs[..|xs| - 1])
  }

  // The last sample of `xs` qualifies and completes a long enough run.
  predicate Reported(cfg: Config, c: Criterion, xs: seq<Sample>)
    requires cfg.Shaped()
    decreases |xs|, 0
  {
    |xs| > 0 &&
    var k := |xs| - 1;
    Qualifies(cfg, c, xs[k]) && Qualifying(cfg, c, xs[Start(cfg, c, xs[..k])..]) >= Enough(cfg, c, xs[k])
  }

  function RunLength(cfg: Config, c: Criterion, xs: seq<Sample>): nat
    requires cfg.Shaped()
  {
    Qualifying(cfg, c, xs[Start(cfg, c, xs)..])
  }

  lemma RunLengthStep(cfg: Config, c: Criterion, xs: seq<Sample>)
    requires cfg.Shaped() && |xs| > 0
    ensures var k := |xs| - 1; var n := RunLength(cfg, c, xs[..k]);
            && (Reported(cfg, c, xs) <==> Qualifies(cfg, c, xs[k]) && n + 1 >= Enough(cfg, c, xs[k]))
            && RunLength(cfg, c, xs) ==
               (if Breaks(cfg, c, xs[k]) || Reported(cfg, c, xs) then 0
                else if Qualifies(cfg, c, xs[k]) then n + 1
                else n)
  {
    var k := |xs| - 1;
    var l := Start(cfg, c, xs[..k]);
    assert xs[l..][..k - l] == xs[..k][l..];
  }

  // The counters are the lengths of the two runs, and the flags are false between calls.
  lemma {:induction false} CountersCount(cfg: Config, xs: seq<Sample>)
    requires cfg.Shaped()
    ensures Run(cfg, xs) == State(false, false, RunLength(cfg, Sw, xs), RunLength(cfg, Hw, xs))
  {
    if |xs| > 0 {
      CountersCount(cfg, xs[..|xs| - 1]);
      RunLengthStep(cfg, Sw, xs);
      RunLengthStep(cfg, Hw, xs);
    }
  }

  // A call reports a full battery exactly when one of the two runs is long enough.
  lemma FullIffReported(cfg: Config, xs: seq<Sample>, x: Sample)
    requires cfg.Shaped()
    ensures Step(cfg, Run(cfg, xs), x).1 <==> Reported(cfg, Sw, xs + [x]) || Reported(cfg, Hw, xs + [x])
  {
    assert (xs + [x])[..|xs|] == xs;
    CountersCount(cfg, xs);
    RunLengthStep(cfg, Sw, xs + [x]);
    RunLengthStep(cfg, Hw, xs + [x]);
  }

  // ------------------------------------------------------------- what debouncing means

  // A report rests on a stretch of samples none of which breaks the criterion.
  lemma {:induction false} RunIsUnbroken(cfg: Config, c: Criterion, xs: seq<Sample>)
    requires cfg.Shaped()
    ensures forall i :: Start(cfg, c, xs) <= i < |xs| ==> !Breaks(cfg, c, xs[i])
  {
    if |xs| > 0 {
      RunIsUnbroken(cfg, c, xs[..|xs| - 1]);
    }
  }

  lemma ReportIsSustained(cfg: Config, c: Criterion, xs: seq<Sample>)
    requires cfg.Shaped() && Reported(cfg, c, xs)
    ensures exists from ::
              && 0 <= from < |xs|
              && (forall i :: from <= i < |xs| ==> !Breaks(cfg, c, xs[i]))
              && Qualifying(cfg, c, xs[from..]) >= Enough(cfg, c, xs[|xs| - 1])
  {
    var k := |xs| - 1;
    RunIsUnbroken(cfg, c, xs[..k]);
    var from := Start(cfg, c, xs[..k]);
    assert forall i :: from <= i < k ==> xs[..k][i] == xs[i];
    assert from < |xs| && Qualifying(cfg, c, xs[from..]) >= Enough(cfg, c, xs[k]);
  }

  // No run grows past the larger of the two limits without being reported.
  function Longest(cfg: Config, c: Criterion): nat {
    if c.Hw? then 2 else if cfg.fullCountSwNum > 2 then 5 * cfg.fullCountSwNum else 10
  }

  lemma {:induction false} RunIsBounded(cfg: Config, c: Criterion, xs: seq<Sample>)
    requires cfg.Shaped()
    ensures RunLength(cfg, c, xs) <= Longest(cfg, c)
  {
    if |xs| > 0 {
      RunIsBounded(cfg, c, xs[..|xs| - 1]);
      RunLengthStep(cfg, c, xs);
    }
  }

  lemma {:induction false} LongerSuffix(cfg: Config, c: Criterion, xs: seq<Sample>, i: nat, j: nat)
    requires cfg.Shaped() && i <= j <= |xs|
    ensures Qualifying(cfg, c, xs[j..]) <= Qualifying(cfg, c, xs[i..])
    decreases |xs|
  {
    if j < |xs| {
      var k := |xs| - 1;
      assert xs[i..][..k - i] == xs[..k][i..] && xs[j..][..k - j] == xs[..k][j..];
      LongerSuffix(cfg, c, xs[..k], i, j);
    }
  }

  lemma {:induction false} StartIsEarlier(cfg: Config, c: Criterion, xs: seq<Sample>, from: nat)
    requires cfg.Shaped() && from <= |xs|
    requires forall i :: from <= i < |xs| ==> !Breaks(cfg, c, xs[i])
    requires forall i :: from < i <= |xs| ==> !Reported(cfg, c, xs[..i])
    ensures Start(cfg, c, xs) <= from
    decreases |xs|
  {
    if from < |xs| {
      var k := |xs| - 1;
      assert xs[..|xs|] == xs;
      forall i | from < i <= k ensures !Reported(cfg, c, xs[..k][..i]) {
        assert xs[..k][..i] == xs[..i];
      }
      StartIsEarlier(cfg, c, xs[..k], from);
    }
  }

  // Conversely, a stretch with enough qualifying samples and no break is always reported.
  lemma SustainedIsReported(cfg: Config, c: Criterion, xs: seq<Sample>, from: nat)
    requires cfg.Shaped() && from <= |xs|
    requires forall i :: from <= i < |xs| ==> !Breaks(cfg, c, xs[i])
    requires Qualifying(cfg, c, xs[from..]) > Longest(cfg, c)
    ensures exists i :: from < i <= |xs| && Reported(cfg, c, xs[..i])
  {
    if forall i :: from < i <= |xs| ==> !Reported(cfg, c, xs[..i]) {
      StartIsEarlier(cfg, c, xs, from);
      RunIsBounded(cfg, c, xs);
      LongerSuffix(cfg, c, xs, Start(cfg, c, xs), from);
    }
  }

  class FullDetector {
    const cfg: Config
    var retSw: bool
    var retHw: bool
    var vbatCountsSw: int
    var vbatCountsHw: int

    function View(): State
      reads this
    {
      State(retSw, retHw, vbatCountsSw, vbatCountsHw)
    }

    constructor (cfg: Config)
      ensures this.cfg == cfg && View() == INITIAL
    {
      this.cfg := cfg;
      retSw, retHw, vbatCountsSw, vbatCountsHw := false, false, 0, 0;
    }

    method Check(x: Sample) returns (full: bool)
      requires cfg.Shaped()
      modifies this
      ensures (View(), full) == Step(cfg, old(View()), x)
    {
      if !cfg.checkBattFullBySw {
        return false;
      }
      if !x.ffcIdle {
        return false;
      }
      if !x.online || x.region < BATT_TEMP_COLD || x.region > BATT_TEMP_WARM {
        vbatCountsSw, vbatCountsHw, retSw, retHw := 0, 0, false, false;
        return false;
      }
      var fullVolHw := cfg.vbatmaxMv[x.region];
      var fullVolSw := cfg.vbatmaxMv[x.region] - cfg.fvOffsetVoltageMv;
      var termCurrent := cfg.swItermMa;
      if cfg.littleColdItermMa > 0 && x.region == BATT_TEMP_LITTLE_COLD {
        termCurrent := cfg.littleColdItermMa;
      }
      if x.vbatMv > fullVolSw - x.decCv {
        if x.ibatMa < 0 && Abs(x.ibatMa) <= termCurrent {
          vbatCountsSw := vbatCountsSw + 1;
          if vbatCountsSw > FULL_COUNTS_SW * cfg.fullCountSwNum {
            vbatCountsSw, retSw := 0, true;
          }
        } else if x.ibatMa >= 0 {
          vbatCountsSw := vbatCountsSw + 1;
          if vbatCountsSw > FULL_COUNTS_SW * 2 {
            vbatCountsSw, retSw := 0, true;
          }
        } else {
          vbatCountsSw, retSw := 0, false;
        }
      } else {
        vbatCountsSw, retSw := 0, false;
      }
      if x.vbatMv >= fullVolHw + 18 - x.decCv {
        vbatCountsHw := vbatCountsHw + 1;
        if vbatCountsHw >= FULL_COUNTS_HW {
          vbatCountsHw, retHw := 0, true;
        }
      } else {
        vbatCountsHw, retHw := 0, false;
      }
      if retSw || retHw {
        retSw, retHw := false, false;
        return true;
      }
      return false;
    }
  }
}
