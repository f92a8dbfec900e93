// The charger over-voltage latch: oplus_chg_check_charger_uovp.
module ChargerOvp {
  import opened CommConfig

  datatype WlsType = UNKNOWN | BPP | EPP | EPP_PLUS | VOOC | SVOOC | PD_65W | TRX

  datatype Sample = Sample(wlsType: WlsType, vchgMv: int)

  // Two flags of struct oplus_chg_comm and the two static counters of the function.
  datatype State = State(chgOvp: bool, vbusUovp: bool, overVoltCount: int, notOverVoltCount: int)

  const DETECT_TIME := 3
  const MARGIN_MV := 100

  function VchgMax(cfg: Config, t: WlsType): int {
    match t
    case UNKNOWN | BPP => cfg.bppVchgMaxMv
    case EPP | EPP_PLUS | VOOC => cfg.eppVchgMaxMv
    case SVOOC | PD_65W | TRX => cfg.fastVchgMaxMv
  }

  function VchgMin(cfg: Config, t: WlsType): int {
    match t
    case UNKNOWN | BPP => cfg.bppVchgMinMv
    case EPP | EPP_PLUS | VOOC => cfg.eppVchgMinMv
    case SVOOC | PD_65W | TRX => cfg.fastVchgMinMv
  }

  predicate OutOfWindow(cfg: Config, x: Sample) {
    !x.wlsType.TRX? && (x.vchgMv > VchgMax(cfg, x.wlsType) || x.vchgMv <= VchgMin(cfg, x.wlsType))
  }

  predicate InsideMargin(cfg: Config, x: Sample) {
    !x.wlsType.TRX? && VchgMin(cfg, x.wlsType) + MARGIN_MV < x.vchgMv < VchgMax(cfg, x.wlsType) - MARGIN_MV
  }

  // status_init clears the flags; the counters are whatever earlier sessions left.
  function Initial(over: int, notOver: int): State {
    State(false, false, over, notOver)
  }

  function Step(cfg: Config, s: State, x: Sample): State {
    if !s.chgOvp && OutOfWindow(cfg, x) then
      var n := if s.vbusUovp then s.overVoltCount + 1 else 0;
      s.(vbusUovp := true, overVoltCount := n, chgOvp := DETECT_TIME <= n)
    else if s.chgOvp && InsideMargin(cfg, x) then
      var n := if s.vbusUovp then 0 else s.notOverVoltCount + 1;
      s.(vbusUovp := false, notOverVoltCount := n, chgOvp := n < DETECT_TIME)
    else s
  }

  function Run(cfg: Config, s: State, xs: seq<Sample>): State {
    if |xs| == 0 then s else Step(cfg, Run(cfg, s, xs[..|xs| - 1]), xs[|xs| - 1])
  }

  // A sample that argues for turning the latch round: for setting it, a voltage outside the
  // window of the wireless type; for clearing it, one inside by more than 100 mV. Reverse
  // charging never argues.
  predicate Argues(cfg: Config, latched: bool, x: Sample) {
    match x.wlsType
    case UNKNOWN => ArguesIn(cfg.bppVchgMinMv, cfg.bppVchgMaxMv, latched, x.vchgMv)
    case BPP => ArguesIn(cfg.bppVchgMinMv, cfg.bppVchgMaxMv, latched, x.vchgMv)
    case EPP => ArguesIn(cfg.eppVchgMinMv, cfg.eppVchgMaxMv, latched, x.vchgMv)
    case EPP_PLUS => ArguesIn(cfg.eppVchgMinMv, cfg.eppVchgMaxMv, latched, x.vchgMv)
    case VOOC => ArguesIn(cfg.eppVchgMinMv, cfg.eppVchgMaxMv, latched, x.vchgMv)
    case SVOOC => ArguesIn(cfg.fastVchgMinMv, cfg.fastVchgMaxMv, latched, x.vchgMv)
    case PD_65W => ArguesIn(cfg.fastVchgMinMv, cfg.fastVchgMaxMv, latched, x.vchgMv)
    case TRX => false
  }

  predicate ArguesIn(minMv: int, maxMv: int, latched: bool, vchgMv: int) {
    if latched then minMv + 100 < vchgMv < maxMv - 100 else vchgMv <= minMv || vchgMv > maxMv
  }

  function Arguments(cfg: Config, latched: bool, xs: seq<Sample>): nat {
    if |xs| == 0 then 0
    else Arguments(cfg, latched, xs[..|xs| - 1]) + if Argues(cfg, latched, xs[|xs| - 1]) then 1 else 0
  }

  // How many samples of a trace had been taken when the latch last turned round.
  function LastTurn(cfg: Config, s: State, xs: seq<Sample>): (r: nat)
    ensures r <= |xs|
  {
    if |xs| == 0 then 0
    else if Run(cfg, s, xs).chgOvp != Run(cfg, s, xs[..|xs| - 1]).chgOvp then |xs|
    else LastTurn(cfg, s, xs[..|xs| - 1])
  }

  // Samples that argue for turning the latch since it last turned.
  function Since(cfg: Config, s: State, xs: seq<Sample>): nat {
    Arguments(cfg, Run(cfg, s, xs).chgOvp, xs[LastTurn(cfg, s, xs)..])
  }

  lemma SinceStep(cfg: Config, s: State, xs: seq<Sample>)
    requires |xs| > 0
    ensures var latched := Run(cfg, s, xs[..|xs| - 1]).chgOvp;
            Since(cfg, s, xs) ==
            if Run(cfg, s, xs).chgOvp != latched then 0
            else Since(cfg, s, xs[..|xs| - 1]) + if Argues(cfg, latched, xs[|xs| - 1]) then 1 else 0
  {
    var k := |xs| - 1;
    var l := LastTurn(cfg, s, xs[..k]);
    assert xs[l..][..|xs| - l - 1] == xs[..k][l..];
  }

  // The two flags and the two counters encode how many samples have argued so far.
  lemma {:induction false} CountersCount(cfg: Config, s: State, xs: seq<Sample>)
    requires !s.chgOvp && !s.vbusUovp
    ensures var r := Run(cfg, s, xs); var n := Since(cfg, s, xs);
            && n <= 3
            && (n > 0 <==> r.vbusUovp != r.chgOvp)
            && (n > 0 ==> n == 1 + if r.chgOvp then r.notOverVoltCount else r.overVoltCount)
  {
    if |xs| > 0 {
      CountersCount(cfg, s, xs[..|xs| - 1]);
      SinceStep(cfg, s, xs);
    }
  }

  // The latch turns round, either way, exactly on the fourth sample that argues for it
  // since it last turned (or since status init), whatever samples come in between.
  lemma TurnsOnTheFourth(cfg: Config, over: int, notOver: int, xs: seq<Sample>, x: Sample)
    ensures var s := Initial(over, notOver); var latched := Run(cfg, s, xs).chgOvp;
            Run(cfg, s, xs + [x]).chgOvp != latched <==> Argues(cfg, latched, x) && Since(cfg, s, xs) == 3
  {
    assert (xs + [x])[..|xs|] == xs;
    CountersCount(cfg, Initial(over, notOver), xs);
  }

  // The comments of the source speak of a voltage that is "continuously" too high; four
  // bad samples with good ones in between set the latch as well.
  lemma InterruptedSamplesStillLatch(cfg: Config, bad: Sample, good: Sample)
    requires Argues(cfg, false, bad) && Argues(cfg, true, good)
    ensures Run(cfg, Initial(0, 0), [bad, good, bad, good, bad, good, bad]).chgOvp
  {
    var xs := [bad, good, bad, good, bad, good, bad];
    var s := Initial(0, 0);
    assert xs[..7][..6] == xs[..6] && xs[..6][..5] == xs[..5] && xs[..5][..4] == xs[..4];
    assert xs[..4][..3] == xs[..3] && xs[..3][..2] == xs[..2] && xs[..2][..1] == xs[..1] && xs[..1][..0] == [];
    assert Run(cfg, s, xs[..1]) == State(false, true, 0, 0) == Run(cfg, s, xs[..2]);
    assert Run(cfg, s, xs[..3]) == State(false, true, 1, 0) == Run(cfg, s, xs[..4]);
    assert Run(cfg, s, xs[..5]) == State(false, true, 2, 0) == Run(cfg, s, xs[..6]);
    assert xs[..7] == xs;
  }

  class ChargerMonitor {
    const cfg: Config
    var chgOvp: bool
    var vbusUovp: bool
    var overVoltCount: int
    var notOverVoltCount: int

    function View(): State
      reads this
    {
      State(chgOvp, vbusUovp, overVoltCount, notOverVoltCount)
    }

    constructor (cfg: Config)
      ensures this.cfg == cfg && View() == Initial(0, 0)
    {
      this.cfg := cfg;
      chgOvp, vbusUovp, overVoltCount, notOverVoltCount := false, false, 0, 0;
    }

    method StatusInit()
      modifies this
      ensures View() == Initial(old(overVoltCount), old(notOverVoltCount))
    {
      chgOvp, vbusUovp := false, false;
    }

    // `rxVotes` are the votes of UOVP_VOTER on the receiver-disable votable: a pulse when
    // the latch sets, a release when it clears. `recheck` asks for a temperature check.
    method Check(x: Sample, rxVotable: bool) returns (rxVotes: seq<bool>, recheck: bool)
      modifies this
      ensures View() == Step(cfg, old(View()), x)
      ensures recheck <==> old(chgOvp) && !chgOvp
      ensures rxVotes == if !rxVotable || chgOvp == old(chgOvp) then [] else if chgOvp then [true, false] else [false]
    {
      rxVotes, recheck := [], false;
      var vchgMax, vchgMin;
      match x.wlsType {
        case UNKNOWN | BPP => vchgMax, vchgMin := cfg.bppVchgMaxMv, cfg.bppVchgMinMv;
        case EPP | EPP_PLUS | VOOC => vchgMax, vchgMin := cfg.eppVchgMaxMv, cfg.eppVchgMinMv;
        case SVOOC | PD_65W => vchgMax, vchgMin := cfg.fastVchgMaxMv, cfg.fastVchgMinMv;
        case TRX => return;
      }
      var preUovp := vbusUovp;
      if !chgOvp {
        if x.vchgMv > vchgMax || x.vchgMv <= vchgMin {
          vbusUovp := true;
          overVoltCount := if preUovp then overVoltCount + 1 else 0;
          if DETECT_TIME <= overVoltCount {
            rxVotes := if rxVotable then [true, false] else [];
            chgOvp := true;
          }
        }
      } else {
        if x.vchgMv < vchgMax - MARGIN_MV && x.vchgMv > vchgMin + MARGIN_MV {
          vbusUovp := false;
          notOverVoltCount := if !preUovp then notOverVoltCount + 1 else 0;
          if DETECT_TIME <= notOverVoltCount {
            rxVotes := if rxVotable then [false] else [];
            chgOvp, recheck := false, true;
          }
        }
      }
    }
  }
}
