/** Year-month arithmetic on periods encoded as `yyyy * 100 + mm`, and the
    rebalance-timing predicate of the simulator.

    The source splits a period with Python's `divmod(p, 100)`. With a positive
    divisor Python's floor division and modulo agree with Dafny's Euclidean
    `/` and `%`, so `Year` and `Month` below are exact for negative periods too. */
module Calendar {

  /** The `yyyy` part of a period. */
  function Year(p: int): int { p / 100 }

  /** The `mm` part of a period, in 0..99 (not necessarily a calendar month). */
  function Month(p: int): int { p % 100 }

  /** Months since year 0: the quantity the carry/borrow loop keeps fixed. */
  function MonthIndex(p: int): int { Year(p) * 12 + Month(p) }

  /** A period whose month part is a calendar month. */
  predicate IsPeriod(p: int) { 1 <= Month(p) <= 12 }

  /** Two periods with calendar months and the same month index are equal. */
  lemma PeriodUnique(p: int, q: int)
    requires IsPeriod(p) && IsPeriod(q)
    requires MonthIndex(p) == MonthIndex(q)
    ensures p == q
  {
    assert p == Year(p) * 100 + Month(p);
    assert q == Year(q) * 100 + Month(q);
    assert (Year(p) - Year(q)) * 12 == Month(q) - Month(p);
  }

  /** Between periods with calendar months, the integer order is the order of
      month indexes. */
  lemma PeriodOrder(p: int, q: int)
    requires IsPeriod(p) && IsPeriod(q)
    ensures p <= q <==> MonthIndex(p) <= MonthIndex(q)
  {
    assert p == Year(p) * 100 + Month(p);
    assert q == Year(q) * 100 + Month(q);
    if Year(p) < Year(q) {
      assert (Year(q) - Year(p)) * 12 >= 12;
      assert (Year(q) - Year(p)) * 100 >= 100;
    } else if Year(p) > Year(q) {
      assert (Year(p) - Year(q)) * 12 >= 12;
      assert (Year(p) - Year(q)) * 100 >= 100;
    }
  }

  /** The period `n` months after `p` (before it when `n < 0`), in closed form:
      the specification of `AddMonthToYm`. */
  function AddMonths(p: int, n: int): (r: int)
    ensures IsPeriod(r)
    ensures MonthIndex(r) == MonthIndex(p) + n
  {
    var k := MonthIndex(p) + n - 1;
    var r := (k / 12) * 100 + (k % 12 + 1);
    assert Year(r) == k / 12 && Month(r) == k % 12 + 1;
    r
  }

  /** `add_month_to_ym`: add the months to the month part, then carry into or
      borrow from the year one twelve at a time until the month is 1..12. */
  method AddMonthToYm(target: int, addMonths: int) returns (r: int)
    ensures r == AddMonths(target, addMonths)
  {
    var yyyy, mm := target / 100, target % 100;
    mm := mm + addMonths;
    while true
      invariant yyyy * 12 + mm == MonthIndex(target) + addMonths
      decreases if mm < 1 then 1 - mm else mm - 12
    {
      if 1 <= mm <= 12 {
        break;
      }
      if mm < 1 {
        mm := mm + 12;
        yyyy := yyyy - 1;
      }
      if mm > 12 {
        mm := mm - 12;
        yyyy := yyyy + 1;
      }
    }
    r := yyyy * 100 + mm;
    assert Year(r) == yyyy && Month(r) == mm;
    PeriodUnique(r, AddMonths(target, addMonths));
  }

  /** `calculate_diff_month_with_ym`: the signed number of months from
      `fromYm` to `toYm`. Adding it to `fromYm` lands on `toYm` whenever `toYm`
      has a calendar month. */
  function DiffMonths(fromYm: int, toYm: int): (d: int)
    ensures IsPeriod(toYm) ==> AddMonths(fromYm, d) == toYm
  {
    var d := (Year(toYm) - Year(fromYm)) * 12 + (Month(toYm) - Month(fromYm));
    if IsPeriod(toYm) then PeriodUnique(AddMonths(fromYm, d), toYm); d else d
  }

  /** Round trip: the distance from `p` to `AddMonths(p, n)` is `n`, for every
      period and every shift, however large or negative. */
  lemma DiffAfterAdd(p: int, n: int)
    ensures DiffMonths(p, AddMonths(p, n)) == n
  {
  }

  /** Shifting twice is shifting by the sum. */
  lemma AddMonthsTwice(p: int, m: int, n: int)
    ensures AddMonths(AddMonths(p, m), n) == AddMonths(p, m + n)
  {
    PeriodUnique(AddMonths(AddMonths(p, m), n), AddMonths(p, m + n));
  }

  /** A shift of zero leaves a period with a calendar month unchanged. */
  lemma AddZeroMonths(p: int)
    requires IsPeriod(p)
    ensures AddMonths(p, 0) == p
  {
    PeriodUnique(AddMonths(p, 0), p);
  }

  /** One month later is a larger integer, whatever the month part of `p`
      (0..99): the simulation loop's clock strictly increases. */
  lemma NextMonthIsLater(p: int)
    ensures AddMonths(p, 1) > p
  {
    var r := AddMonths(p, 1);
    assert p == Year(p) * 100 + Month(p);
    assert r == Year(r) * 100 + Month(r);
    if Year(r) > Year(p) {
      assert (Year(r) - Year(p)) * 100 >= 100;
    }
  }

  /** Stepping a calendar month one month towards a later `q` shortens the
      distance by one, and passes `q` only when it started on it. */
  lemma NextMonthDistance(p: int, q: int)
    requires IsPeriod(p) && IsPeriod(q) && p <= q
    ensures DiffMonths(p, q) >= 0
    ensures DiffMonths(AddMonths(p, 1), q) == DiffMonths(p, q) - 1
    ensures AddMonths(p, 1) > q <==> p == q
  {
    PeriodOrder(p, q);
    PeriodOrder(AddMonths(p, 1), q);
    if MonthIndex(p) == MonthIndex(q) {
      PeriodUnique(p, q);
    }
  }

  /** Month `m` of a year is `m - first` months after its month `first`. */
  lemma SameYearMonths(year: int, first: int, m: int)
    requires 1 <= first <= m <= 12
    ensures AddMonths(year * 100 + first, m - first) == year * 100 + m
  {
    assert Year(year * 100 + first) == year && Month(year * 100 + first) == first;
    assert Year(year * 100 + m) == year && Month(year * 100 + m) == m;
    PeriodUnique(AddMonths(year * 100 + first, m - first), year * 100 + m);
  }

  /** `n` is a multiple of `g`: counting down from `n` in steps of `g` ends
      exactly on 0. */
  predicate MultipleOf(n: nat, g: nat)
    requires g > 0
    decreases n
  {
    if n < g then n == 0 else MultipleOf(n - g, g)
  }

  /** `is_rebalance_timing`: the month distance from the anchor is a multiple
      of the frequency. The source only fails (division by zero) when the
      frequency is 0, and its `%` test treats a negative frequency like its
      absolute value. `RebalanceTimingIsModulo` proves this definition equal
      to the source's `diff % frequency == 0`. */
  predicate IsRebalanceTiming(start: int, current: int, frequency: int)
    requires frequency != 0
  {
    MultipleOf(Abs(DiffMonths(start, current)), Abs(frequency))
  }

  /** The rebalance test is the source's remainder test. */
  lemma RebalanceTimingIsModulo(start: int, current: int, frequency: int)
    requires frequency != 0
    ensures IsRebalanceTiming(start, current, frequency) <==> DiffMonths(start, current) % frequency == 0
  {
    MultipleOfIsModulo(DiffMonths(start, current), frequency);
  }

  /** Counting down by `|f|` from `|d|` reaches 0 exactly when `d % f == 0`. */
  lemma {:induction false} MultipleOfIsModulo(d: int, f: int)
    requires f != 0
    ensures MultipleOf(Abs(d), Abs(f)) <==> d % f == 0
    decreases Abs(d)
  {
    if Abs(d) < Abs(f) {
      SmallRemainder(d, f);
    } else {
      var d' := if d > 0 then d - Abs(f) else d + Abs(f);
      assert Abs(d') == Abs(d) - Abs(f);
      MultipleOfIsModulo(d', f);
      if (d > 0) == (f > 0) {
        ModShift(d', f);
      } else {
        ModShift(d, f);
      }
    }
  }

  /** Below `|f|` in size, only 0 is a multiple of `f`. */
  lemma SmallRemainder(d: int, f: int)
    requires f != 0 && Abs(d) < Abs(f)
    ensures d % f == 0 <==> d == 0
  {
    var q := d / f;
    assert d == q * f + d % f;
    MultipleAwayFromZero(q, f);
  }

  /** The anchor period is always a rebalance period. */
  lemma AnchorIsRebalance(start: int, frequency: int)
    requires frequency != 0
    ensures IsRebalanceTiming(start, start, frequency)
  {
  }

  /** `k` months after the anchor is a rebalance period exactly when `k` is a
      multiple of the frequency. */
  lemma RebalanceAfter(start: int, k: int, frequency: int)
    requires frequency != 0
    ensures IsRebalanceTiming(start, AddMonths(start, k), frequency) <==> k % frequency == 0
  {
    DiffAfterAdd(start, k);
    RebalanceTimingIsModulo(start, AddMonths(start, k), frequency);
  }

  /** Rebalance timing repeats every `frequency` months. */
  lemma RebalancePeriodic(start: int, current: int, frequency: int)
    requires frequency != 0
    ensures IsRebalanceTiming(start, AddMonths(current, frequency), frequency)
            == IsRebalanceTiming(start, current, frequency)
  {
    var d := DiffMonths(start, current);
    assert DiffMonths(start, AddMonths(current, frequency)) == d + frequency;
    RebalanceTimingIsModulo(start, current, frequency);
    RebalanceTimingIsModulo(start, AddMonths(current, frequency), frequency);
    ModShift(d, frequency);
  }

  lemma ModShift(d: int, f: int)
    requires f != 0
    ensures (d + f) % f == d % f
  {
    var q, m := d / f, d % f;
    var q', m' := (d + f) / f, (d + f) % f;
    assert d == q * f + m;
    assert d + f == q' * f + m';
    assert (q + 1 - q') * f == m' - m;
    MultipleAwayFromZero(q + 1 - q', f);
  }

  function Abs(x: int): int { if x < 0 then -x else x }

  /** A non-zero multiple of `f` is at least `|f|` away from 0. */
  lemma MultipleAwayFromZero(a: int, f: int)
    ensures a == 0 || a * f >= Abs(f) || a * f <= -Abs(f)
  {
    if a > 0 && f > 0 {
      assert (a - 1) * f >= 0;
    } else if a > 0 && f < 0 {
      assert (a - 1) * -f >= 0;
    } else if a < 0 && f > 0 {
      assert (-a - 1) * f >= 0;
    } else if a < 0 && f < 0 {
      assert (-a - 1) * -f >= 0;
    }
  }
}
