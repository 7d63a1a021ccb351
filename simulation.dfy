/** The simulation driver: the month-by-month loop of `main`, with the data
    readers replaced by a provider function from period to that period's data.

    Each month is either a REBALANCE (buckets and value weights built afresh)
    or a CARRY (the previous month's holdings, minus those without a return,
    renormalised). Either way the month's contribution is reported and the
    weights are then compounded by the month's return and renormalised; that
    table is the next month's carry-in state. */
module Simulation {
  import opened Calendar
  import opened Portfolio

  datatype Option<T> = None | Some(value: T)

  /** What the loop prints for one month: the period, the "reb" / "not reb"
      marker, and the per-bucket sum of `DW`. */
  datatype Report = Report(period: int, rebalanced: bool, contribution: map<Bucket, real>)

  /** The reports of a run and the holdings table it ends with (none when the
      loop never ran). */
  datatype Trace = Trace(reports: seq<Report>, holdings: Option<Table>)

  /** The data readers: what they return for each period. */
  type Provider = int -> PeriodData

  ghost predicate ProviderOk(provider: Provider)
  {
    forall p :: DataOk(provider(p))
  }

  /** One pass of the loop body. The previous table is only read on a carry
      month, and a carry month with no previous table is excluded: the first
      month, the anchor, always rebalances. The month is reported with its
      rebalance flag, and the new state is valid. */
  function Step(anchor: int, current: int, frequency: int, d: PeriodData, holdings: Option<Table>)
    : (o: (Report, Table))
    requires frequency != 0 && DataOk(d)
    requires holdings.Some? ==> Valid(holdings.value)
    requires holdings.Some? || IsRebalanceTiming(anchor, current, frequency)
    ensures Valid(o.1)
    ensures o.0.period == current && o.0.rebalanced == IsRebalanceTiming(anchor, current, frequency)
  {
    var rebalanced := IsRebalanceTiming(anchor, current, frequency);
    var t := if rebalanced then Rebalance(d) else Carry(holdings.value, d.futureReturn);
    assert Priced(t, d.futureReturn);
    (Report(current, rebalanced, Contribution(t, d.futureReturn)), DriftStep(t, d.futureReturn))
  }

  /** What one month does to the holdings: the report covers all six
      buckets; a rebalance month holds exactly the instruments every reader
      covers; a carry month keeps the held instruments that have a return,
      each in the bucket it had. */
  lemma StepHoldings(anchor: int, current: int, frequency: int, d: PeriodData, holdings: Option<Table>)
    requires frequency != 0 && DataOk(d)
    requires holdings.Some? ==> Valid(holdings.value)
    requires holdings.Some? || IsRebalanceTiming(anchor, current, frequency)
    ensures var o := Step(anchor, current, frequency, d, holdings);
            && o.0.contribution.Keys == AllBuckets
            && (o.0.rebalanced ==> CodeSet(o.1) == JoinedSet(d))
            && (!o.0.rebalanced ==> CodeSet(o.1) == CodeSet(holdings.value) * d.futureReturn.Keys)
            && (!o.0.rebalanced ==>
                  forall j :: 0 <= j < |o.1| ==>
                    exists h :: h in holdings.value && h.code == o.1[j].code && h.bucket == o.1[j].bucket)
  {
    var rebalanced := IsRebalanceTiming(anchor, current, frequency);
    if rebalanced {
      var t := Rebalance(d);
      RebalanceHoldings(d);
      DriftStepLaw(t, d.futureReturn);
    } else {
      var t := Carry(holdings.value, d.futureReturn);
      CarryHoldings(holdings.value, d.futureReturn);
      DriftStepLaw(t, d.futureReturn);
      var next := DriftStep(t, d.futureReturn);
      forall j | 0 <= j < |next|
        ensures exists h :: h in holdings.value && h.code == next[j].code && h.bucket == next[j].bucket
      {
        assert next[j].code == t[j].code && next[j].bucket == t[j].bucket;
      }
    }
  }

  /** The loop from `current` on, with the table carried in from the month
      before. */
  function RunFrom(anchor: int, current: int, toYm: int, frequency: int, provider: Provider,
                   holdings: Option<Table>): (tr: Trace)
    requires frequency != 0 && ProviderOk(provider)
    requires holdings.Some? ==> Valid(holdings.value)
    requires holdings.Some? || IsRebalanceTiming(anchor, current, frequency)
    ensures tr.holdings.Some? ==> Valid(tr.holdings.value)
    ensures current <= toYm ==> tr.holdings.Some? && |tr.reports| > 0
    decreases toYm - current
  {
    if current > toYm then Trace([], holdings)
    else
      var step := Step(anchor, current, frequency, provider(current), holdings);
      NextMonthIsLater(current);
      var rest := RunFrom(anchor, AddMonths(current, 1), toYm, frequency, provider, Some(step.1));
      Trace([step.0] + rest.reports, rest.holdings)
  }

  /** A whole run from `fromYm` to `toYm`; nothing is reported when
      `fromYm > toYm`, and otherwise the run ends with a valid table. */
  function Run(fromYm: int, toYm: int, frequency: int, provider: Provider): (tr: Trace)
    requires frequency != 0 && ProviderOk(provider)
    ensures fromYm > toYm ==> tr.reports == [] && tr.holdings == None
    ensures fromYm <= toYm ==> tr.holdings.Some? && Valid(tr.holdings.value)
  {
    RunFrom(fromYm, fromYm, toYm, frequency, provider, None)
  }

  /** The reports `done` followed by the trace `rest`. */
  function Prepend(done: seq<Report>, rest: Trace): Trace
  {
    Trace(done + rest.reports, rest.holdings)
  }

  /** `main`: the `while current_dateym <= to_dateym` loop, reassigning the
      holdings table and advancing the clock by `add_month_to_ym(current, 1)`.
      Its reports and final table are those of `Run`. */
  method Simulate(fromYm: int, toYm: int, frequency: int, provider: Provider)
    returns (reports: seq<Report>, holdings: Option<Table>)
    requires frequency != 0 && ProviderOk(provider)
    ensures Trace(reports, holdings) == Run(fromYm, toYm, frequency, provider)
  {
    var current := fromYm;
    holdings := None;
    reports := [];
    AnchorIsRebalance(fromYm, frequency);
    ghost var run := Run(fromYm, toYm, frequency, provider);
    while current <= toYm
      invariant holdings.Some? ==> Valid(holdings.value)
      invariant holdings.Some? || IsRebalanceTiming(fromYm, current, frequency)
      invariant run == Prepend(reports, RunFrom(fromYm, current, toYm, frequency, provider, holdings))
      decreases toYm - current
    {
      var step := Step(fromYm, current, frequency, provider(current), holdings);
      LoopStep(fromYm, current, toYm, frequency, provider, holdings, reports);
      reports := reports + [step.0];
      holdings := Some(step.1);
      NextMonthIsLater(current);
      current := AddMonthToYm(current, 1);
    }
    RunFromDone(fromYm, current, toYm, frequency, provider, holdings, reports);
  }

  /** Past `toYm` the loop does nothing more. */
  lemma RunFromDone(anchor: int, current: int, toYm: int, frequency: int, provider: Provider,
                    holdings: Option<Table>, done: seq<Report>)
    requires frequency != 0 && ProviderOk(provider)
    requires holdings.Some? ==> Valid(holdings.value)
    requires holdings.Some? || IsRebalanceTiming(anchor, current, frequency)
    requires current > toYm
    ensures Prepend(done, RunFrom(anchor, current, toYm, frequency, provider, holdings)) == Trace(done, holdings)
  {
    assert done + [] == done;
  }

  /** What the loop invariant needs from one month: the reports so far
      followed by the run from `current` are the reports so far plus this
      month's report, followed by the run from the next month. */
  lemma LoopStep(anchor: int, current: int, toYm: int, frequency: int, provider: Provider,
                 holdings: Option<Table>, done: seq<Report>)
    requires frequency != 0 && ProviderOk(provider)
    requires holdings.Some? ==> Valid(holdings.value)
    requires holdings.Some? || IsRebalanceTiming(anchor, current, frequency)
    requires current <= toYm
    ensures var step := Step(anchor, current, frequency, provider(current), holdings);
            Prepend(done, RunFrom(anchor, current, toYm, frequency, provider, holdings))
            == Prepend(done + [step.0], RunFrom(anchor, AddMonths(current, 1), toYm, frequency, provider, Some(step.1)))
  {
    var step := Step(anchor, current, frequency, provider(current), holdings);
    var rest := RunFrom(anchor, AddMonths(current, 1), toYm, frequency, provider, Some(step.1));
    RunFromUnfold(anchor, current, toYm, frequency, provider, holdings);
    PrependTwice(done, [step.0], rest);
  }

  lemma PrependTwice(a: seq<Report>, b: seq<Report>, rest: Trace)
    ensures Prepend(a, Prepend(b, rest)) == Prepend(a + b, rest)
  {
    assert a + (b + rest.reports) == (a + b) + rest.reports;
  }

  /** One unfolding of the loop: the month's report, then the rest of the run
      from the next month with the month's table carried in. */
  lemma RunFromUnfold(anchor: int, current: int, toYm: int, frequency: int, provider: Provider,
                      holdings: Option<Table>)
    requires frequency != 0 && ProviderOk(provider)
    requires holdings.Some? ==> Valid(holdings.value)
    requires holdings.Some? || IsRebalanceTiming(anchor, current, frequency)
    requires current <= toYm
    ensures var step := Step(anchor, current, frequency, provider(current), holdings);
            RunFrom(anchor, current, toYm, frequency, provider, holdings)
            == Prepend([step.0], RunFrom(anchor, AddMonths(current, 1), toYm, frequency, provider, Some(step.1)))
  {
  }

  /** From a calendar month `current` on, the loop runs once per month up to
      `toYm`: `DiffMonths(current, toYm) + 1` reports, none when `current`
      is already past `toYm`. */
  lemma {:induction false} RunFromLength(anchor: int, current: int, toYm: int, frequency: int,
                                         provider: Provider, holdings: Option<Table>)
    requires IsPeriod(current) && IsPeriod(toYm)
    requires frequency != 0 && ProviderOk(provider)
    requires holdings.Some? ==> Valid(holdings.value)
    requires holdings.Some? || IsRebalanceTiming(anchor, current, frequency)
    ensures |RunFrom(anchor, current, toYm, frequency, provider, holdings).reports|
            == (if current > toYm then 0 else DiffMonths(current, toYm) + 1)
    decreases toYm - current
  {
    if current <= toYm {
      var step := Step(anchor, current, frequency, provider(current), holdings);
      NextMonthIsLater(current);
      NextMonthDistance(current, toYm);
      RunFromUnfold(anchor, current, toYm, frequency, provider, holdings);
      RunFromLength(anchor, AddMonths(current, 1), toYm, frequency, provider, Some(step.1));
    }
  }

  /** From `current` on, the loop visits `current`, `current + 1 month`, ...
      in order, and flags each visited month with the rebalance predicate. */
  lemma {:induction false} RunFromVisits(anchor: int, current: int, toYm: int, frequency: int,
                                         provider: Provider, holdings: Option<Table>)
    requires IsPeriod(current)
    requires frequency != 0 && ProviderOk(provider)
    requires holdings.Some? ==> Valid(holdings.value)
    requires holdings.Some? || IsRebalanceTiming(anchor, current, frequency)
    ensures var rs := RunFrom(anchor, current, toYm, frequency, provider, holdings).reports;
            forall k :: 0 <= k < |rs| ==>
              rs[k].period == AddMonths(current, k)
              && rs[k].rebalanced == IsRebalanceTiming(anchor, rs[k].period, frequency)
    decreases toYm - current
  {
    if current <= toYm {
      var step := Step(anchor, current, frequency, provider(current), holdings);
      var next := AddMonths(current, 1);
      NextMonthIsLater(current);
      RunFromUnfold(anchor, current, toYm, frequency, provider, holdings);
      RunFromVisits(anchor, next, toYm, frequency, provider, Some(step.1));
      VisitsCons(anchor, current, frequency, step.0,
                 RunFrom(anchor, next, toYm, frequency, provider, Some(step.1)).reports);
    }
  }

  /** The month-by-month shape of `RunFromVisits`, one report further back. */
  lemma VisitsCons(anchor: int, current: int, frequency: int, first: Report, rest: seq<Report>)
    requires IsPeriod(current) && frequency != 0
    requires first.period == current && first.rebalanced == IsRebalanceTiming(anchor, current, frequency)
    requires forall k :: 0 <= k < |rest| ==>
               rest[k].period == AddMonths(AddMonths(current, 1), k)
               && rest[k].rebalanced == IsRebalanceTiming(anchor, rest[k].period, frequency)
    ensures forall k :: 0 <= k < |[first] + rest| ==>
              ([first] + rest)[k].period == AddMonths(current, k)
              && ([first] + rest)[k].rebalanced == IsRebalanceTiming(anchor, ([first] + rest)[k].period, frequency)
  {
    var rs := [first] + rest;
    AddZeroMonths(current);
    forall k | 1 <= k < |rs|
      ensures rs[k].period == AddMonths(current, k)
    {
      assert rs[k] == rest[k - 1];
      AddMonthsTwice(current, 1, k - 1);
    }
  }

  /** A run between calendar months `fromYm` and `toYm` reports
      `DiffMonths(fromYm, toYm) + 1` months, none when `fromYm > toYm`; month
      `k` of it is `fromYm + k` months and rebalances exactly when `k` is a
      multiple of the frequency, so the first month always rebalances. */
  lemma RunShape(fromYm: int, toYm: int, frequency: int, provider: Provider)
    requires IsPeriod(fromYm) && IsPeriod(toYm)
    requires frequency != 0 && ProviderOk(provider)
    ensures var rs := Run(fromYm, toYm, frequency, provider).reports;
            |rs| == (if fromYm > toYm then 0 else DiffMonths(fromYm, toYm) + 1)
    ensures var rs := Run(fromYm, toYm, frequency, provider).reports;
            forall k :: 0 <= k < |rs| ==>
              rs[k].period == AddMonths(fromYm, k) && rs[k].rebalanced == (k % frequency == 0)
  {
    AnchorIsRebalance(fromYm, frequency);
    RunFromLength(fromYm, fromYm, toYm, frequency, provider, None);
    RunFromVisits(fromYm, fromYm, toYm, frequency, provider, None);
    var rs := Run(fromYm, toYm, frequency, provider).reports;
    forall k | 0 <= k < |rs|
      ensures rs[k].rebalanced == (k % frequency == 0)
    {
      RebalanceAfter(fromYm, k, frequency);
    }
  }

  /** January to March of any year with monthly rebalancing: three months,
      every one a rebalance. */
  lemma MonthlyScenario(year: int, provider: Provider)
    requires ProviderOk(provider)
    ensures var rs := Run(year * 100 + 1, year * 100 + 3, 1, provider).reports;
            && |rs| == 3
            && rs[0].period == year * 100 + 1 && rs[1].period == year * 100 + 2
            && rs[2].period == year * 100 + 3
            && rs[0].rebalanced && rs[1].rebalanced && rs[2].rebalanced
  {
    var jan := year * 100 + 1;
    assert Year(jan) == year && Month(jan) == 1;
    assert Year(year * 100 + 3) == year && Month(year * 100 + 3) == 3;
    RunShape(jan, year * 100 + 3, 1, provider);
    SameYearMonths(year, 1, 3);
    var rs := Run(jan, year * 100 + 3, 1, provider).reports;
    assert |rs| == 3;
    SameYearMonths(year, 1, 2);
    assert rs[0].period == AddMonths(jan, 0) && rs[0].rebalanced == (0 % 1 == 0);
    assert rs[1].period == AddMonths(jan, 1) && rs[1].rebalanced == (1 % 1 == 0);
    assert rs[2].period == AddMonths(jan, 2) && rs[2].rebalanced == (2 % 1 == 0);
  }

  /** January to April of any year rebalancing every three months: January
      and April rebalance, February and March carry. */
  lemma QuarterlyScenario(year: int, provider: Provider)
    requires ProviderOk(provider)
    ensures var rs := Run(year * 100 + 1, year * 100 + 4, 3, provider).reports;
            && |rs| == 4
            && rs[0].period == year * 100 + 1 && rs[1].period == year * 100 + 2
            && rs[2].period == year * 100 + 3 && rs[3].period == year * 100 + 4
            && rs[0].rebalanced && !rs[1].rebalanced && !rs[2].rebalanced && rs[3].rebalanced
  {
    var jan := year * 100 + 1;
    assert Year(jan) == year && Month(jan) == 1;
    assert Year(year * 100 + 4) == year && Month(year * 100 + 4) == 4;
    RunShape(jan, year * 100 + 4, 3, provider);
    SameYearMonths(year, 1, 4);
    var rs := Run(jan, year * 100 + 4, 3, provider).reports;
    assert |rs| == 4;
    SameYearMonths(year, 1, 2);
    SameYearMonths(year, 1, 3);
    assert rs[0].period == AddMonths(jan, 0) && rs[0].rebalanced == (0 % 3 == 0);
    assert rs[1].period == AddMonths(jan, 1) && rs[1].rebalanced == (1 % 3 == 0);
    assert rs[2].period == AddMonths(jan, 2) && rs[2].rebalanced == (2 % 3 == 0);
    assert rs[3].period == AddMonths(jan, 3) && rs[3].rebalanced == (3 % 3 == 0);
  }
}
