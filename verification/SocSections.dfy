// Accounting per state-of-charge section: oplus_chg_track_cal_section_soc_inc_rm.
module SocSections {

  datatype Section = DEFAULT | LOW | MEDIUM | HIGH | OVER

  // A time in seconds and a remaining capacity, or differences of such.
  datatype Tally = Tally(time: int, rm: int) {
    function Plus(t: Tally): Tally {
      Tally(time + t.time, rm + t.rm)
    }

    function Minus(t: Tally): Tally {
      Tally(time - t.time, rm - t.rm)
    }
  }

  const ZERO := Tally(0, 0)

  // One call: `at` holds the local time and the gauge's remaining capacity.
  datatype Tick = Tick(charging: bool, soc: int, at: Tally)

  // The section counters of the track status, and the statics of the function: the
  // counters as they stood when `go` was taken.
  datatype State = State(
    section: Section, low: Tally, medium: Tally, high: Tally,
    preLow: Tally, preMedium: Tally, preHigh: Tally, go: Tally)

  function SectionOf(soc: int): Section {
    if soc <= 50 then LOW else if soc <= 75 then MEDIUM else if soc <= 90 then HIGH else OVER
  }

  // The section after a charging tick; a section is left for its neighbours only.
  function NextSection(section: Section, soc: int): Section {
    match section
    case DEFAULT => DEFAULT
    case LOW => if soc > 50 then MEDIUM else LOW
    case MEDIUM => if soc <= 50 then LOW else if soc > 75 then HIGH else MEDIUM
    case HIGH => if soc <= 75 then MEDIUM else if soc > 90 then OVER else HIGH
    case OVER => if soc < 90 then HIGH else OVER
  }

  function Reset(s: State, x: Tick): State {
    if s.section.DEFAULT? then State(SectionOf(x.soc), ZERO, ZERO, ZERO, ZERO, ZERO, ZERO, x.at) else s
  }

  function Step(s0: State, x: Tick): State {
    var s := Reset(s0, x);
    if !x.charging then
      s.(section := SectionOf(x.soc), preLow := s.low, preMedium := s.medium, preHigh := s.high, go := x.at)
    else
      var to := NextSection(s.section, x.soc);
      var go := if to == s.section then s.go else x.at;
      var gone := x.at.Minus(s.go);
      match s.section
      case LOW =>
        var low := gone.Plus(s.preLow);
        s.(section := to, low := low, preLow := if to.LOW? then s.preLow else low, go := go)
      case MEDIUM =>
        var medium := gone.Plus(s.preMedium);
        s.(section := to, medium := medium, preMedium := if to.MEDIUM? then s.preMedium else medium, go := go)
      case HIGH =>
        var high := gone.Plus(s.preHigh);
        s.(section := to, high := high, preHigh := if to.HIGH? then s.preHigh else high, go := go)
      case _ => s.(section := to, go := go)
  }

  function Run(s: State, xs: seq<Tick>): State {
    if |xs| == 0 then s else Step(Run(s, xs[..|xs| - 1]), xs[|xs| - 1])
  }

  // ------------------------------------------------------------- where the tracker stands

  // How many of the three bounds a state of charge has passed, and how many sections lie
  // below one.
  function Passed(soc: int): nat {
    (if soc > 50 then 1 else 0) + (if soc > 75 then 1 else 0) + (if soc > 90 then 1 else 0)
  }

  function Rank(section: Section): int {
    match section
    case DEFAULT => -1
    case LOW => 0
    case MEDIUM => 1
    case HIGH => 2
    case OVER => 3
  }

  // The first tick, and any that is not charging, finds the section of its state of charge.
  // A charging tick moves at most one section towards it, and stays in the last at 90.
  lemma SectionMoves(s: State, x: Tick)
    ensures var was, now, goal := Rank(s.section), Rank(Step(s, x).section), Passed(x.soc);
            if was == -1 || !x.charging then now == goal
            else if was < goal then now == was + 1
            else if was > goal && !(was == 3 && x.soc == 90) then now == was - 1
            else now == was
  {
  }

  // Where the tracker should stand: the section of the last state of charge, but at 90, on
  // the way down from the last section and while charging, still in that.
  function Place(xs: seq<Tick>): nat
    requires |xs| > 0
  {
    var k := |xs| - 1;
    if k > 0 && xs[k].charging && xs[k].soc == 90 && Place(xs[..k]) == 3 then 3 else Passed(xs[k].soc)
  }

  // No charging tick has passed more than one bound at once.
  predicate Gradual(xs: seq<Tick>)
    requires |xs| > 0
  {
    var k := |xs| - 1;
    k > 0 ==> Gradual(xs[..k]) && (xs[k].charging ==> -1 <= Passed(xs[k].soc) - Place(xs[..k]) <= 1)
  }

  predicate AlwaysInPlace(s: State, xs: seq<Tick>)
    requires |xs| > 0
  {
    Rank(Run(s, xs).section) == Place(xs) && (|xs| > 1 ==> AlwaysInPlace(s, xs[..|xs| - 1]))
  }

  // Since a reset the tracker has stood in its place throughout if and only if the trace
  // is gradual.
  lemma {:induction false} SectionFollowsSoc(s: State, xs: seq<Tick>)
    requires s.section.DEFAULT? && |xs| > 0
    ensures AlwaysInPlace(s, xs) <==> Gradual(xs)
  {
    var k := |xs| - 1;
    if k == 0 {
      assert Run(s, xs) == Step(s, xs[0]);
      SectionMoves(s, xs[0]);
    } else {
      SectionFollowsSoc(s, xs[..k]);
      SectionMoves(Run(s, xs[..k]), xs[k]);
    }
  }

  // ------------------------------------------------------------- what it counts

  // What a trace credits to `section`: time and capacity gained on every charging tick
  // that finds the tracker in that section, since the tick before.
  function Credit(s: State, xs: seq<Tick>, section: Section): Tally {
    if |xs| <= 1 then ZERO
    else
      var k := |xs| - 1;
      var before := Credit(s, xs[..k], section);
      if xs[k].charging && Run(s, xs[..k]).section == section
      then before.Plus(xs[k].at.Minus(xs[k - 1].at)) else before
  }

  // The intervals that end in a charging tick which finds the tracker in any section but
  // the last.
  function ChargedBelowOver(s: State, xs: seq<Tick>): Tally {
    if |xs| <= 1 then ZERO else ChargedBelowOver(s, xs[..|xs| - 1]).Plus(Charged(s, xs))
  }

  function Charged(s: State, xs: seq<Tick>): Tally
    requires |xs| > 1
  {
    var k := |xs| - 1;
    if xs[k].charging && !Run(s, xs[..k]).section.OVER? then xs[k].at.Minus(xs[k - 1].at) else ZERO
  }

  // Every counter that is not running equals its saved value; the running one is ahead of
  // it by what has passed since `go`.
  ghost predicate Balanced(s: State, now: Tally) {
    && !s.section.DEFAULT?
    && s.low == (if s.section.LOW? then s.preLow.Plus(now.Minus(s.go)) else s.preLow)
    && s.medium == (if s.section.MEDIUM? then s.preMedium.Plus(now.Minus(s.go)) else s.preMedium)
    && s.high == (if s.section.HIGH? then s.preHigh.Plus(now.Minus(s.go)) else s.preHigh)
  }

  lemma StepIsBalanced(s: State, x: Tick, last: Tally)
    requires s.section.DEFAULT? || Balanced(s, last)
    ensures Balanced(Step(s, x), x.at)
    ensures !s.section.DEFAULT? ==>
              var s' := Step(s, x); var gain := if x.charging then x.at.Minus(last) else ZERO;
              && s'.low == (if s.section.LOW? then s.low.Plus(gain) else s.low)
              && s'.medium == (if s.section.MEDIUM? then s.medium.Plus(gain) else s.medium)
              && s'.high == (if s.section.HIGH? then s.high.Plus(gain) else s.high)
    ensures s.section.DEFAULT? ==> var s' := Step(s, x); s'.low == s'.medium == s'.high == ZERO
  {
  }

  // Over any trace since a reset, up and down the sections and across pauses of charging,
  // each section's counter is exactly what the trace credits to it.
  lemma {:induction false} SectionsAreExact(s: State, xs: seq<Tick>)
    requires s.section.DEFAULT? && |xs| > 0
    ensures var r := Run(s, xs);
            && Balanced(r, xs[|xs| - 1].at)
            && r.low == Credit(s, xs, LOW)
            && r.medium == Credit(s, xs, MEDIUM)
            && r.high == Credit(s, xs, HIGH)
  {
    var k := |xs| - 1;
    if k == 0 {
      assert Run(s, xs) == Step(s, xs[0]);
      StepIsBalanced(s, xs[0], ZERO);
    } else {
      SectionsAreExact(s, xs[..k]);
      StepIsBalanced(Run(s, xs[..k]), xs[k], xs[k - 1].at);
    }
  }

  function Total(s: State): Tally {
    s.low.Plus(s.medium).Plus(s.high)
  }

  lemma StepAddsUp(s: State, x: Tick, last: Tally)
    requires Balanced(s, last)
    ensures Total(Step(s, x)) ==
            Total(s).Plus(if x.charging && !s.section.OVER? then x.at.Minus(last) else ZERO)
  {
    StepIsBalanced(s, x, last);
  }

  lemma AlwaysBalanced(s: State, xs: seq<Tick>)
    requires s.section.DEFAULT? && |xs| > 0
    ensures Balanced(Run(s, xs), xs[|xs| - 1].at)
  {
    SectionsAreExact(s, xs);
  }

  lemma TickAddsUp(s: State, xs: seq<Tick>)
    requires s.section.DEFAULT? && |xs| > 1
    ensures Total(Run(s, xs)) == Total(Run(s, xs[..|xs| - 1])).Plus(Charged(s, xs))
  {
    var k := |xs| - 1;
    AlwaysBalanced(s, xs[..k]);
    StepAddsUp(Run(s, xs[..k]), xs[k], xs[k - 1].at);
  }

  // Conservation of time and of capacity over the three sections.
  lemma {:induction false} SectionsConserve(s: State, xs: seq<Tick>)
    requires s.section.DEFAULT? && |xs| > 0
    ensures Total(Run(s, xs)) == ChargedBelowOver(s, xs)
  {
    if |xs| == 1 {
      assert Run(s, xs) == Step(s, xs[0]);
      StepIsBalanced(s, xs[0], ZERO);
    } else {
      SectionsConserve(s, xs[..|xs| - 1]);
      TickAddsUp(s, xs);
    }
  }

  class SectionTracker {
    var section: Section
    var low: Tally
    var medium: Tally
    var high: Tally
    var preLow: Tally
    var preMedium: Tally
    var preHigh: Tally
    var go: Tally

    function View(): State
      reads this
    {
      State(section, low, medium, high, preLow, preMedium, preHigh, go)
    }

    constructor ()
      ensures View() == State(DEFAULT, ZERO, ZERO, ZERO, ZERO, ZERO, ZERO, ZERO)
    {
      section, go := DEFAULT, ZERO;
      low, medium, high := ZERO, ZERO, ZERO;
      preLow, preMedium, preHigh := ZERO, ZERO, ZERO;
    }

    method Account(x: Tick)
      modifies this
      ensures View() == Step(old(View()), x)
    {
      if section == DEFAULT {
        low, medium, high := ZERO, ZERO, ZERO;
        preLow, preMedium, preHigh := ZERO, ZERO, ZERO;
        section := SectionOf(x.soc);
        go := x.at;
      }
      if !x.charging {
        section := SectionOf(x.soc);
        preLow, preMedium, preHigh := low, medium, high;
        go := x.at;
        return;
      }
      match section {
        case LOW =>
          low := x.at.Minus(go).Plus(preLow);
          if x.soc > 50 {
            preLow, go, section := low, x.at, MEDIUM;
          }
        case MEDIUM =>
          medium := x.at.Minus(go).Plus(preMedium);
          if x.soc <= 50 {
            preMedium, go, section := medium, x.at, LOW;
          } else if x.soc > 75 {
            preMedium, go, section := medium, x.at, HIGH;
          }
        case HIGH =>
          high := x.at.Minus(go).Plus(preHigh);
          if x.soc <= 75 {
            preHigh, go, section := high, x.at, MEDIUM;
          } else if x.soc > 90 {
            preHigh, go, section := high, x.at, OVER;
          }
        case OVER =>
          if x.soc < 90 {
            go, section := x.at, HIGH;
          }
        case DEFAULT =>
      }
    }
  }
}
