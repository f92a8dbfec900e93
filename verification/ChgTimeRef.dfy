// The reference charge time: oplus_get_time_percent and oplus_get_chg_time_ref.
module ChgTimeRef {

  // Integer division of C, which truncates toward zero.
  function CDiv(a: int, b: int): int
    requires b != 0
  {
    if a >= 0 then a / b else -((-a) / b)
  }

  function CMod(a: int, b: int): int
    requires b != 0
  {
    a - CDiv(a, b) * b
  }

  // Seconds per percent times the current: 36 coulombs per percent and mAh, per cell.
  function Charge(capacityMah: nat, vbattNum: nat): nat
    requires vbattNum > 0
  {
    capacityMah * 36 / vbattNum
  }

  // oplus_get_time_percent.
  function TimePercent(charge: nat, current: int): int
    requires current != 0
  {
    var rest := CMod(charge, current);
    var up := if CMod(current, 2) == 0 then rest >= CDiv(current, 2) else rest >= CDiv(current, 2) + 1;
    CDiv(charge, current) + if up then 1 else 0
  }

  // For a positive current this is division rounded to the nearest, halves up.
  lemma RoundsHalfUp(charge: nat, current: int)
    requires current > 0
    ensures var r := TimePercent(charge, current);
            0 <= r && 2 * current * r <= 2 * charge + current < 2 * current * (r + 1)
  {
    var q := charge / current;
    assert charge == q * current + charge % current;
    assert 2 * current * (q + 1) == 2 * (q * current) + 2 * current;
    assert 2 * current * (q + 2) == 2 * (q * current) + 4 * current;
    assert 2 * current * q == 2 * (q * current);
  }

  lemma RoundedIsAntitone(charge: nat, p1: int, r1: int, p2: int, r2: int)
    requires 0 < p1 <= p2 && 0 <= r2
    requires 2 * charge + p1 < 2 * p1 * (r1 + 1)
    requires 2 * p2 * r2 <= 2 * charge + p2
    ensures r2 <= r1
  {
    assert (p2 - p1) * (2 * r2 - 1) == 2 * p2 * r2 - p2 - 2 * p1 * r2 + p1;
    if r1 + 1 <= r2 {
      Scale(2 * p1, r1 + 1, r2);
      Scale(p2 - p1, 0, 2 * r2 - 1);
    }
  }

  // A larger current never takes longer.
  lemma Antitone(charge: nat, low: int, high: int)
    requires 0 < low <= high
    ensures TimePercent(charge, high) <= TimePercent(charge, low)
  {
    var r1, r2 := TimePercent(charge, low), TimePercent(charge, high);
    RoundsHalfUp(charge, low);
    RoundsHalfUp(charge, high);
    RoundedIsAntitone(charge, low, r1, high, r2);
  }

  lemma Scale(k: int, a: int, b: int)
    requires k >= 0 && a <= b
    ensures k * a <= k * b
  {
  }

  // The charging current of each band of the state of charge. For a project that is not
  // one of the five, the currents keep their initial -1.
  datatype Bands = Bands(high: int, mid: int, low: int, lowest: int)

  function Currents(project: int): Bands {
    if project == 1 then Bands(5000, 3500, 2500, 1000)
    else if project == 2 || project == 3 then Bands(3200, 2250, 1800, 1000)
    else if project == 4 then Bands(4500, 3500, 2500, 1500)
    else if project == 5 then Bands(5000, 3500, 2500, 1000)
    else Bands(-1, -1, -1, -1)
  }

  // Seconds per percent of each band. The values that the source first sets for other
  // projects are overwritten like those of the five.
  function Speeds(charge: nat, project: int): Bands {
    var c := Currents(project);
    Bands(TimePercent(charge, c.high), TimePercent(charge, c.mid),
          TimePercent(charge, c.low), TimePercent(charge, c.lowest))
  }

  const HIGH_END := 51
  const MID_END := 76
  const LOW_END := 91
  const LOWEST_END := 101

  // oplus_get_chg_time_ref, given the speeds.
  function TimeRef(v: Bands, start: int, end: int): int {
    if start < HIGH_END then
      if end < HIGH_END then v.high * (end - start)
      else if end < MID_END then v.high * (HIGH_END - start) + v.mid * (end - start)
      else if end < LOW_END then
        v.high * (HIGH_END - start) + v.mid * (MID_END - HIGH_END) + v.low * (end - start)
      else if end < LOWEST_END then
        v.high * (HIGH_END - start) + v.mid * (MID_END - HIGH_END) + v.low * (LOW_END - MID_END) + v.lowest * (end - start)
      else 0
    else if start < MID_END then
      if end < MID_END then v.mid * (end - start)
      else if end < LOW_END then v.mid * (MID_END - start) + v.low * (end - start)
      else if end < LOWEST_END then
        v.mid * (MID_END - start) + v.low * (LOW_END - MID_END) + v.lowest * (end - start)
      else 0
    else if start < LOW_END then
      if end < LOW_END then v.low * (end - start)
      else if end < LOWEST_END then v.low * (LOW_END - start) + v.lowest * (end - start)
      else 0
    else if start < LOWEST_END then v.lowest * (end - start)
    else 0
  }

  // ------------------------------------------------------- the speeds of each project

  // `v` seconds are the charge of one percent divided by the current, to the nearest.
  predicate Nearest(charge: nat, current: nat, v: int) {
    2 * current * v <= 2 * charge + current < 2 * current * (v + 1)
  }

  lemma ProjectSpeeds(charge: nat, project: int)
    requires 1 <= project <= 5
    ensures var v := Speeds(charge, project);
            match project
            case 4 =>
              && Nearest(charge, 4500, v.high) && Nearest(charge, 3500, v.mid)
              && Nearest(charge, 2500, v.low) && Nearest(charge, 1500, v.lowest)
            case _ =>
              if project == 1 || project == 5 then
                && Nearest(charge, 5000, v.high) && Nearest(charge, 3500, v.mid)
                && Nearest(charge, 2500, v.low) && Nearest(charge, 1000, v.lowest)
              else
                && Nearest(charge, 3200, v.high) && Nearest(charge, 2250, v.mid)
                && Nearest(charge, 1800, v.low) && Nearest(charge, 1000, v.lowest)
  {
    var c := Currents(project);
    RoundsHalfUp(charge, c.high);
    RoundsHalfUp(charge, c.mid);
    RoundsHalfUp(charge, c.low);
    RoundsHalfUp(charge, c.lowest);
  }

  // For any other project the estimate runs backwards, in every band.
  lemma OtherSpeeds(charge: nat, project: int)
    requires project < 1 || project > 5
    ensures var v := Speeds(charge, project); v.high == v.mid == v.low == v.lowest == 0 - charge
  {
    MinusOne(charge);
  }

  // One percent of the capacity, in coulombs, per cell and rounded down.
  lemma ChargeIsPerCell(capacityMah: nat, vbattNum: nat)
    requires vbattNum > 0
    ensures Charge(capacityMah, vbattNum) * vbattNum <= capacityMah * 36 < (Charge(capacityMah, vbattNum) + 1) * vbattNum
  {
  }

  // Where the end is not above the start, the estimate is that of the band of the start,
  // and not positive for positive speeds. Outside the table it is 0.
  lemma OutsideTheSum(v: Bands, start: int, end: int)
    ensures end <= start <= 100 ==> TimeRef(v, start, end) == PerPercent(v, start) * (end - start)
    ensures start > 100 || (start < 91 && end > 100) ==> TimeRef(v, start, end) == 0
    ensures 91 <= start <= 100 ==> TimeRef(v, start, end) == v.lowest * (end - start)
  {
  }

  predicate Slowing(v: Bands) {
    0 <= v.high <= v.mid <= v.low <= v.lowest
  }

  lemma ProjectsSlow(charge: nat, project: int)
    requires 1 <= project <= 5
    ensures Slowing(Speeds(charge, project))
  {
    var c := Currents(project);
    RoundsHalfUp(charge, c.high);
    Antitone(charge, c.mid, c.high);
    Antitone(charge, c.low, c.mid);
    Antitone(charge, c.lowest, c.low);
  }

  // One percent more never shortens the estimate; the crossings of a band are where the
  // formula changes.
  lemma OneMoreFromHigh(v: Bands, start: int, end: int)
    requires Slowing(v) && start < HIGH_END && end < 100
    ensures TimeRef(v, start, end) <= TimeRef(v, start, end + 1)
  {
    if end == HIGH_END - 1 {
      Scale(v.mid, 0, HIGH_END - start);
    } else if end == MID_END - 1 {
      Scale(MID_END - start, v.mid, v.low);
    } else if end == LOW_END - 1 {
      Scale(LOW_END - start, v.low, v.lowest);
    }
  }

  lemma OneMoreFromMid(v: Bands, start: int, end: int)
    requires Slowing(v) && HIGH_END <= start < MID_END && end < 100
    ensures TimeRef(v, start, end) <= TimeRef(v, start, end + 1)
  {
    if end == MID_END - 1 {
      Scale(v.low, 0, MID_END - start);
    } else if end == LOW_END - 1 {
      Scale(LOW_END - start, v.low, v.lowest);
    }
  }

  lemma OneMoreFromLow(v: Bands, start: int, end: int)
    requires Slowing(v) && MID_END <= start && end < 100
    ensures TimeRef(v, start, end) <= TimeRef(v, start, end + 1)
  {
    if start < LOW_END && end == LOW_END - 1 {
      Scale(v.lowest, 0, LOW_END - start);
    }
  }

  lemma OneMorePercent(v: Bands, start: int, end: int)
    requires Slowing(v) && end < 100
    ensures TimeRef(v, start, end) <= TimeRef(v, start, end + 1)
  {
    if start < HIGH_END {
      OneMoreFromHigh(v, start, end);
    } else if start < MID_END {
      OneMoreFromMid(v, start, end);
    } else {
      OneMoreFromLow(v, start, end);
    }
  }

  lemma {:induction false} MonotoneInEnd(v: Bands, start: int, e1: int, e2: int)
    requires Slowing(v) && e1 <= e2 <= 100
    ensures TimeRef(v, start, e1) <= TimeRef(v, start, e2)
    decreases e2 - e1
  {
    if e1 < e2 {
      OneMorePercent(v, start, e1);
      MonotoneInEnd(v, start, e1 + 1, e2);
    }
  }

  ghost predicate NeverShrinks(v: Bands) {
    forall start, e1, e2 :: 0 <= start <= e1 <= e2 <= 100 ==> TimeRef(v, start, e1) <= TimeRef(v, start, e2)
  }

  lemma SlowingNeverShrinks(v: Bands)
    requires Slowing(v)
    ensures NeverShrinks(v)
  {
    forall start, e1, e2 | 0 <= start <= e1 <= e2 <= 100
      ensures TimeRef(v, start, e1) <= TimeRef(v, start, e2)
    {
      MonotoneInEnd(v, start, e1, e2);
    }
  }

  lemma NegativeShrinks(v: Bands)
    requires v.high < 0
    ensures !NeverShrinks(v)
  {
    assert TimeRef(v, 0, 0) == 0 && TimeRef(v, 0, 1) == v.high;
  }

  lemma MinusOne(charge: nat)
    ensures TimePercent(charge, -1) == 0 - charge
  {
  }

  // The estimate is nondecreasing in the end state of charge exactly for the five
  // projects: for any other the speeds are the negated charge (which may be 0).
  lemma NeverShrinksIffProject(charge: nat, project: int)
    ensures NeverShrinks(Speeds(charge, project)) <==> 1 <= project <= 5 || charge == 0
  {
    var v := Speeds(charge, project);
    if 1 <= project <= 5 {
      ProjectsSlow(charge, project);
      SlowingNeverShrinks(v);
    } else {
      MinusOne(charge);
      if charge == 0 {
        SlowingNeverShrinks(v);
      } else {
        NegativeShrinks(v);
      }
    }
  }

  // ------------------------------------------------------- against the plain sum

  // Seconds for the percent from `p` to `p + 1`.
  function PerPercent(v: Bands, p: int): int {
    if p < 51 then v.high else if p < 76 then v.mid else if p < 91 then v.low else v.lowest
  }

  function Band(p: int): nat {
    if p < 51 then 0 else if p < 76 then 1 else if p < 91 then 2 else 3
  }

  function PlainSum(v: Bands, start: int, end: int): int
    requires start <= end
    decreases end - start
  {
    if start == end then 0 else PlainSum(v, start, end - 1) + PerPercent(v, end - 1)
  }

  // What the estimate counts twice: it charges the band of `end` from `start` on, and not
  // from where the band begins.
  function Excess(v: Bands, start: int, end: int): int {
    if start < 91 <= end then v.lowest * (91 - start)
    else if start < 76 <= end then v.low * (76 - start)
    else if start < 51 <= end then v.mid * (51 - start)
    else 0
  }

  // The estimate grows by the time of the percent, and by the change of the excess.
  lemma GrowsByPercent(v: Bands, start: int, end: int)
    requires start <= end < 100
    ensures TimeRef(v, start, end + 1) - Excess(v, start, end + 1) ==
            TimeRef(v, start, end) - Excess(v, start, end) + PerPercent(v, end)
  {
  }

  lemma {:induction false} SumOfBands(v: Bands, start: int, end: int)
    requires start <= end <= 100
    ensures TimeRef(v, start, end) == PlainSum(v, start, end) + Excess(v, start, end)
    decreases end - start
  {
    if start < end {
      SumOfBands(v, start, end - 1);
      GrowsByPercent(v, start, end - 1);
    }
  }

  // The estimate is never below the sum of the per-percent times, and equals it exactly
  // when start and end lie in one band or the band of `end` takes no time.
  lemma NeverBelowPlainSum(charge: nat, project: int, start: int, end: int)
    requires 1 <= project <= 5 && start <= end <= 100
    ensures var v := Speeds(charge, project);
            && PlainSum(v, start, end) <= TimeRef(v, start, end)
            && (TimeRef(v, start, end) == PlainSum(v, start, end) <==>
                  Band(start) == Band(end) || PerPercent(v, end) == 0)
  {
    var v := Speeds(charge, project);
    ProjectsSlow(charge, project);
    SumOfBands(v, start, end);
    ExcessSign(v, start, end);
  }

  lemma ExcessSign(v: Bands, start: int, end: int)
    requires Slowing(v) && start <= end
    ensures 0 <= Excess(v, start, end)
    ensures Excess(v, start, end) == 0 <==> Band(start) == Band(end) || PerPercent(v, end) == 0
  {
    if LOW_END <= end && start < LOW_END {
      ProductSign(v.lowest, LOW_END - start);
    } else if MID_END <= end && start < MID_END {
      ProductSign(v.low, MID_END - start);
    } else if HIGH_END <= end && start < HIGH_END {
      ProductSign(v.mid, HIGH_END - start);
    }
  }

  lemma ProductSign(a: int, b: int)
    requires a >= 0 && b > 0
    ensures a * b >= 0 && (a * b == 0 <==> a == 0)
  {
  }

  // oplus_get_chg_time_ref of a battery, from `start` to `end` percent.
  function ReferenceTime(capacityMah: nat, vbattNum: nat, project: int, start: int, end: int): int
    requires vbattNum > 0
  {
    TimeRef(Speeds(Charge(capacityMah, vbattNum), project), start, end)
  }

  // For each of the five projects the estimate grows with the end state of charge and is
  // never below the sum of the per-percent times.
  lemma ReferenceTimeIsSound(capacityMah: nat, vbattNum: nat, project: int, start: int, e1: int, e2: int)
    requires vbattNum > 0 && 1 <= project <= 5 && start <= e1 <= e2 <= 100
    ensures PlainSum(Speeds(Charge(capacityMah, vbattNum), project), start, e1)
            <= ReferenceTime(capacityMah, vbattNum, project, start, e1)
            <= ReferenceTime(capacityMah, vbattNum, project, start, e2)
  {
    var charge := Charge(capacityMah, vbattNum);
    NeverBelowPlainSum(charge, project, start, e1);
    ProjectsSlow(charge, project);
    MonotoneInEnd(Speeds(charge, project), start, e1, e2);
  }
}
