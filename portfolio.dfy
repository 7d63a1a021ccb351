/** The weight engine of the simulator: the per-bucket arithmetic that the
    driver applies to the holdings table each month.

    The table (a DataFrame in the source) is a sequence of holdings in row
    order, one per instrument code. Weights are exact `real` numbers, so "the
    weights of a bucket sum to 1" is an equality rather than a tolerance. */
module Portfolio {

  type Code = string

  /** `SIZE_G`: the two-way split on the size characteristic. */
  datatype SizeGroup = Small | Big

  /** `FACTOR_G`: the three-way split on the style factor within a size group. */
  datatype FactorGroup = S | M | L

  /** A `(SIZE_G, FACTOR_G)` group: the unit within which weights sum to 1. */
  datatype Bucket = Bucket(size: SizeGroup, factor: FactorGroup)

  /** The six buckets; the report lists every one of them, empty or not. */
  const AllBuckets: set<Bucket> :=
    {Bucket(Small, S), Bucket(Small, M), Bucket(Small, L),
     Bucket(Big, S), Bucket(Big, M), Bucket(Big, L)}

  /** One row of the holdings table: instrument code, its bucket, its weight. */
  datatype Holding = Holding(code: Code, bucket: Bucket, weight: real)

  type Table = seq<Holding>

  /** What the data readers return for one period: the universe in row order,
      the one-month future return (`DRTNF1`), the size characteristic, the
      style factor, and the bucket that the quantile split assigns to each
      instrument of the joined cross-section. */
  datatype PeriodData = PeriodData(
    universe: seq<Code>,
    futureReturn: map<Code, real>,
    size: map<Code, real>,
    factor: map<Code, real>,
    buckets: map<Code, Bucket>)

  function Abs(x: real): real { if x < 0.0 then -x else x }

  /** The `market_value` column: the absolute size, 0 where size is missing. */
  function MarketValue(d: PeriodData, c: Code): real
  {
    if c in d.size then Abs(d.size[c]) else 0.0
  }

  // ---------------------------------------------------------------------
  // Table predicates and grouped sums

  /** Sum of the weights of the rows in bucket `b`. */
  function GroupSum(t: Table, b: Bucket): real
  {
    if t == [] then 0.0
    else (if t[0].bucket == b then t[0].weight else 0.0) + GroupSum(t[1..], b)
  }

  /** Every row has a return for this period. */
  predicate Priced(t: Table, ret: map<Code, real>)
  {
    forall i :: 0 <= i < |t| ==> t[i].code in ret
  }

  /** Sum of `weight * return` (the `DW` column) over the rows in bucket `b`. */
  function GroupReturn(t: Table, ret: map<Code, real>, b: Bucket): real
    requires Priced(t, ret)
  {
    if t == [] then 0.0
    else (if t[0].bucket == b then t[0].weight * ret[t[0].code] else 0.0)
         + GroupReturn(t[1..], ret, b)
  }

  /** No instrument code appears twice. */
  predicate Distinct(t: Table)
  {
    forall i, j :: 0 <= i < j < |t| ==> t[i].code != t[j].code
  }

  predicate DistinctCodes(cs: seq<Code>)
  {
    forall i, j :: 0 <= i < j < |cs| ==> cs[i] != cs[j]
  }

  predicate Positive(t: Table)
  {
    forall i :: 0 <= i < |t| ==> t[i].weight > 0.0
  }

  /** Every non-empty bucket's weights sum to 1. */
  predicate Normalized(t: Table)
  {
    forall i {:trigger GroupSum(t, t[i].bucket)} :: 0 <= i < |t| ==> GroupSum(t, t[i].bucket) == 1.0
  }

  /** No non-empty bucket sums to 0 (the source would divide by zero). */
  predicate NonDegenerate(t: Table)
  {
    forall i {:trigger GroupSum(t, t[i].bucket)} :: 0 <= i < |t| ==> GroupSum(t, t[i].bucket) != 0.0
  }

  /** The portfolio state carried from one month to the next. */
  predicate Valid(t: Table)
  {
    Distinct(t) && Positive(t) && Normalized(t)
  }

  function CodeSet(t: Table): set<Code>
  {
    set h | h in t :: h.code
  }

  predicate ReturnsAboveMinusOne(ret: map<Code, real>)
  {
    forall c :: c in ret ==> ret[c] > -1.0
  }

  lemma {:induction false} GroupSumBounds(t: Table, b: Bucket)
    requires Positive(t)
    ensures GroupSum(t, b) >= 0.0
    ensures forall i :: 0 <= i < |t| && t[i].bucket == b ==> GroupSum(t, b) >= t[i].weight
  {
    if t != [] {
      GroupSumBounds(t[1..], b);
      forall i | 0 < i < |t| && t[i].bucket == b
        ensures GroupSum(t, b) >= t[i].weight
      {
        assert t[1..][i - 1] == t[i];
      }
    }
  }

  /** With positive weights, every non-empty bucket has a positive total. */
  lemma PositiveNonDegenerate(t: Table)
    requires Positive(t)
    ensures NonDegenerate(t)
    ensures forall i :: 0 <= i < |t| ==> GroupSum(t, t[i].bucket) > 0.0
  {
    forall i | 0 <= i < |t|
      ensures GroupSum(t, t[i].bucket) > 0.0
    {
      GroupSumBounds(t, t[i].bucket);
    }
  }

  /** Dividing every weight of bucket `b` by `k` divides the bucket's total by `k`. */
  lemma {:induction false} ScaledGroupSum(t: Table, u: Table, b: Bucket, k: real)
    requires |u| == |t| && k != 0.0
    requires forall i :: 0 <= i < |t| ==> u[i].bucket == t[i].bucket
    requires forall i :: 0 <= i < |t| && t[i].bucket == b ==> u[i].weight == t[i].weight / k
    ensures GroupSum(u, b) == GroupSum(t, b) / k
  {
    if t != [] {
      ScaledGroupSum(t[1..], u[1..], b, k);
      var x := if t[0].bucket == b then t[0].weight else 0.0;
      var y := if u[0].bucket == b then u[0].weight else 0.0;
      assert y == x / k;
      assert GroupSum(u, b) == y + GroupSum(u[1..], b);
      SumOfQuotients(x, GroupSum(t[1..], b), k);
    }
  }

  lemma SumOfQuotients(x: real, y: real, k: real)
    requires k != 0.0
    ensures x / k + y / k == (x + y) / k
  {
  }

  /** Tables with the same codes row by row have the same code set, and one is
      free of repeated codes when the other is. */
  lemma SameCodes(t: Table, u: Table)
    requires |u| == |t|
    requires forall i :: 0 <= i < |t| ==> u[i].code == t[i].code
    ensures CodeSet(u) == CodeSet(t)
    ensures Distinct(t) ==> Distinct(u)
  {
    forall c | c in CodeSet(t) ensures c in CodeSet(u) {
      var h :| h in t && h.code == c;
      var i :| 0 <= i < |t| && t[i] == h;
      assert u[i] in u;
    }
    forall c | c in CodeSet(u) ensures c in CodeSet(t) {
      var h :| h in u && h.code == c;
      var i :| 0 <= i < |u| && u[i] == h;
      assert t[i] in t;
    }
  }

  // ---------------------------------------------------------------------
  // Sum-and-divide within each bucket

  /** Every row gets `weight / total of its bucket` (the grouped
      `s.div(s.sum())` transform): codes and buckets stay in place, each
      weight becomes its share of its bucket, and every non-empty bucket then
      sums to 1. */
  function Normalize(t: Table): (r: Table)
    requires NonDegenerate(t)
    ensures |r| == |t|
    ensures forall i :: 0 <= i < |t| ==> r[i].code == t[i].code && r[i].bucket == t[i].bucket
    ensures forall i :: 0 <= i < |t| ==> r[i].weight == t[i].weight / GroupSum(t, t[i].bucket)
    ensures Normalized(r)
  {
    var r := seq(|t|, i requires 0 <= i < |t| =>
                   t[i].(weight := t[i].weight / GroupSum(t, t[i].bucket)));
    SharesSumToOne(t, r);
    r
  }

  lemma SharesSumToOne(t: Table, r: Table)
    requires NonDegenerate(t)
    requires |r| == |t|
    requires forall i :: 0 <= i < |t| ==> r[i].bucket == t[i].bucket
    requires forall i :: 0 <= i < |t| ==> r[i].weight == t[i].weight / GroupSum(t, t[i].bucket)
    ensures Normalized(r)
  {
    forall i | 0 <= i < |r|
      ensures GroupSum(r, r[i].bucket) == 1.0
    {
      BucketSharesSumToOne(t, r, t[i].bucket, GroupSum(t, t[i].bucket));
    }
  }

  lemma BucketSharesSumToOne(t: Table, r: Table, b: Bucket, k: real)
    requires |r| == |t| && k != 0.0 && k == GroupSum(t, b)
    requires forall i :: 0 <= i < |t| ==> r[i].bucket == t[i].bucket
    requires forall i :: 0 <= i < |t| && t[i].bucket == b ==> r[i].weight == t[i].weight / k
    ensures GroupSum(r, b) == 1.0
  {
    ScaledGroupSum(t, r, b, k);
    DivSelf(k);
  }

  lemma DivSelf(k: real)
    requires k != 0.0
    ensures k / k == 1.0
  {
  }

  /** Renormalising a table whose buckets already sum to 1 changes nothing. */
  lemma NormalizeIdempotent(t: Table)
    requires Normalized(t)
    ensures NonDegenerate(t)
    ensures Normalize(t) == t
  {
    var r := Normalize(t);
    forall i | 0 <= i < |t| ensures r[i] == t[i] {
      assert r[i].weight == t[i].weight / 1.0;
    }
  }

  /** Normalising twice is normalising once. */
  lemma NormalizeTwice(t: Table)
    requires NonDegenerate(t)
    ensures Normalize(Normalize(t)) == Normalize(t)
  {
    NormalizeIdempotent(Normalize(t));
  }

  /** Renormalising leaves every row of a bucket that already sums to 1
      exactly as it was, whatever happens to the other buckets. */
  lemma NormalizeKeepsSummedBucket(t: Table, b: Bucket)
    requires NonDegenerate(t) && GroupSum(t, b) == 1.0
    ensures forall i :: 0 <= i < |t| && t[i].bucket == b ==> Normalize(t)[i] == t[i]
  {
    forall i | 0 <= i < |t| && t[i].bucket == b
      ensures Normalize(t)[i] == t[i]
    {
      assert Normalize(t)[i].weight == t[i].weight / 1.0;
    }
  }

  /** Normalising keeps codes distinct and weights positive. */
  lemma NormalizeKeepsValid(t: Table)
    requires Distinct(t) && Positive(t)
    ensures NonDegenerate(t)
    ensures Valid(Normalize(t))
    ensures CodeSet(Normalize(t)) == CodeSet(t)
  {
    PositiveNonDegenerate(t);
    var r := Normalize(t);
    SameCodes(t, r);
    forall i | 0 <= i < |t| ensures r[i].weight > 0.0 {
      var s := GroupSum(t, t[i].bucket);
      assert s > 0.0 && r[i].weight == t[i].weight / s && t[i].weight > 0.0;
    }
  }

  // ---------------------------------------------------------------------
  // Rebalance: fresh buckets and value weights

  /** An instrument survives the inner joins of a rebalance period. */
  predicate Joinable(d: PeriodData, c: Code)
  {
    c in d.futureReturn && c in d.size && c in d.factor
  }

  /** The quantile split labels every instrument of the joined cross-section. */
  predicate Labelled(d: PeriodData)
  {
    forall c :: c in d.universe && Joinable(d, c) ==> c in d.buckets
  }

  /** What the model needs of one period's data: a universe without repeats,
      a bucket for every joined instrument, non-zero sizes (so no bucket has
      zero market value) and returns above -100% (so drifted weights stay
      positive). */
  predicate DataOk(d: PeriodData)
  {
    && DistinctCodes(d.universe)
    && Labelled(d)
    && (forall c :: c in d.size ==> d.size[c] != 0.0)
    && ReturnsAboveMinusOne(d.futureReturn)
  }

  /** The universe codes that every reader covers
      (the three inner merges followed by `dropna`). */
  function JoinedCodes(u: seq<Code>, d: PeriodData): (cs: seq<Code>)
    ensures forall c :: c in cs <==> c in u && Joinable(d, c)
    ensures forall i :: 0 <= i < |cs| ==> Joinable(d, cs[i])
    ensures DistinctCodes(u) ==> DistinctCodes(cs)
  {
    if u == [] then []
    else
      var rest := JoinedCodes(u[1..], d);
      assert DistinctCodes(u) ==> u[0] !in u[1..];
      if Joinable(d, u[0]) then [u[0]] + rest else rest
  }

  /** The codes of the joined cross-section. */
  function JoinedSet(d: PeriodData): set<Code>
  {
    set c | c in d.universe && Joinable(d, c)
  }

  /** Rows of the joined cross-section with the market-value proxy `|size|`
      as their (not yet normalised) weight. */
  function Proxies(d: PeriodData): (t: Table)
    requires Labelled(d)
    ensures forall i :: 0 <= i < |t| ==>
              && Joinable(d, t[i].code) && t[i].code in d.buckets
              && t[i].bucket == d.buckets[t[i].code] && t[i].weight == MarketValue(d, t[i].code)
  {
    var cs := JoinedCodes(d.universe, d);
    seq(|cs|, i requires 0 <= i < |cs| =>
          Holding(cs[i], d.buckets[cs[i]], MarketValue(d, cs[i])))
  }

  /** The bucket's total market value over the joined cross-section: the
      `groupby([SIZE_G, FACTOR_G]).market_value.sum()` of a rebalance period. */
  function BucketMarketValue(d: PeriodData, b: Bucket): real
    requires Labelled(d)
  {
    GroupSum(Proxies(d), b)
  }

  /** A rebalance period: keep the instruments every reader covers, give each
      the bucket of the quantile split, and weight it by its share of its
      bucket's market value. The result is a valid state over joined
      instruments; `RebalanceHoldings` states the rest. */
  function Rebalance(d: PeriodData): (t: Table)
    requires DataOk(d)
    ensures Valid(t)
    ensures forall i :: 0 <= i < |t| ==> Joinable(d, t[i].code) && t[i].code in d.buckets
  {
    RebalanceValid(d);
    RebalanceRows(d);
    Normalize(Proxies(d))
  }

  /** What a rebalance period holds: exactly the joined instruments, each in
      the bucket the quantile split gives it, weighted by its share of its
      bucket's (positive) market value. */
  lemma RebalanceHoldings(d: PeriodData)
    requires DataOk(d)
    ensures var t := Rebalance(d);
            && CodeSet(t) == JoinedSet(d)
            && (forall i :: 0 <= i < |t| ==> t[i].bucket == d.buckets[t[i].code])
            && (forall i :: 0 <= i < |t| ==>
                  BucketMarketValue(d, t[i].bucket) > 0.0
                  && t[i].weight == MarketValue(d, t[i].code) / BucketMarketValue(d, t[i].bucket))
  {
    RebalanceValid(d);
    RebalanceRows(d);
  }

  lemma RebalanceValid(d: PeriodData)
    requires DataOk(d)
    ensures forall i :: 0 <= i < |Proxies(d)| ==> GroupSum(Proxies(d), Proxies(d)[i].bucket) > 0.0
    ensures NonDegenerate(Proxies(d))
    ensures Valid(Normalize(Proxies(d))) && CodeSet(Normalize(Proxies(d))) == JoinedSet(d)
  {
    ProxiesFacts(d, Proxies(d));
    PositiveNonDegenerate(Proxies(d));
    NormalizeKeepsValid(Proxies(d));
  }

  lemma RebalanceRows(d: PeriodData)
    requires DataOk(d) && NonDegenerate(Proxies(d))
    requires forall i :: 0 <= i < |Proxies(d)| ==> GroupSum(Proxies(d), Proxies(d)[i].bucket) > 0.0
    ensures var t := Normalize(Proxies(d));
            && (forall i :: 0 <= i < |t| ==> Joinable(d, t[i].code) && t[i].code in d.buckets)
            && (forall i :: 0 <= i < |t| ==> t[i].bucket == d.buckets[t[i].code])
            && (forall i :: 0 <= i < |t| ==>
                  BucketMarketValue(d, t[i].bucket) > 0.0
                  && t[i].weight == MarketValue(d, t[i].code) / BucketMarketValue(d, t[i].bucket))
  {
  }

  /** The proxy rows have distinct codes, positive weights, and cover the
      joined cross-section. */
  lemma ProxiesFacts(d: PeriodData, p: Table)
    requires DataOk(d)
    requires p == Proxies(d)
    ensures Distinct(p) && Positive(p)
    ensures CodeSet(p) == JoinedSet(d)
  {
    var cs := JoinedCodes(d.universe, d);
    assert forall i :: 0 <= i < |p| ==> p[i].code == cs[i];
    forall c | c in JoinedSet(d) ensures c in CodeSet(p) {
      var i :| 0 <= i < |cs| && cs[i] == c;
      assert p[i] in p;
    }
  }

  /** Within a bucket, normalising keeps the ratio between two weights. */
  lemma SharesKeepRatios(t: Table, i: int, j: int)
    requires NonDegenerate(t)
    requires 0 <= i < |t| && 0 <= j < |t| && t[i].bucket == t[j].bucket
    ensures Normalize(t)[i].weight * t[j].weight == Normalize(t)[j].weight * t[i].weight
  {
    var r := Normalize(t);
    var s := GroupSum(t, t[i].bucket);
    assert r[i].weight == t[i].weight / s && r[j].weight == t[j].weight / s;
    calc {
      r[i].weight * t[j].weight;
      t[i].weight * t[j].weight / s;
      r[j].weight * t[i].weight;
    }
  }

  // ---------------------------------------------------------------------
  // Carry: keep the buckets, drop instruments without a return

  /** The rows whose code has a return this period (the left merge on the
      return table followed by `dropna`): a holding is kept, unchanged,
      exactly when its code has a return. */
  function Survivors(t: Table, ret: map<Code, real>): (r: Table)
    ensures forall h :: h in r <==> h in t && h.code in ret
    ensures |r| <= |t|
  {
    if t == [] then []
    else (if t[0].code in ret then [t[0]] else []) + Survivors(t[1..], ret)
  }

  lemma {:induction false} SurvivorsDistinct(t: Table, ret: map<Code, real>)
    requires Distinct(t)
    ensures Distinct(Survivors(t, ret))
  {
    if t != [] {
      SurvivorsDistinct(t[1..], ret);
      var rest := Survivors(t[1..], ret);
      forall h | h in rest ensures h.code != t[0].code {
        var k :| 0 <= k < |t[1..]| && t[1..][k] == h;
        assert t[k + 1] == h;
      }
    }
  }

  /** A carry period: instruments without a return are dropped, the others
      keep their bucket, and weights are renormalised over the survivors of
      each bucket. The state stays valid and every row has a return;
      `CarryHoldings` states which rows remain. */
  function Carry(t: Table, ret: map<Code, real>): (r: Table)
    requires Valid(t)
    ensures Valid(r)
    ensures Priced(r, ret)
  {
    var s := Survivors(t, ret);
    CarryFacts(t, ret, s);
    Normalize(s)
  }

  /** A carry period holds exactly the held instruments that have a return,
      each in the bucket it was held in. */
  lemma CarryHoldings(t: Table, ret: map<Code, real>)
    requires Valid(t)
    ensures var r := Carry(t, ret);
            && CodeSet(r) == CodeSet(t) * ret.Keys
            && (forall j :: 0 <= j < |r| ==>
                  exists h :: h in t && h.code == r[j].code && h.bucket == r[j].bucket)
  {
    var s := Survivors(t, ret);
    CarryFacts(t, ret, s);
    var r := Normalize(s);
    forall j | 0 <= j < |r|
      ensures exists h :: h in t && h.code == r[j].code && h.bucket == r[j].bucket
    {
      assert s[j] in t && s[j].code == r[j].code && s[j].bucket == r[j].bucket;
    }
  }

  lemma CarryFacts(t: Table, ret: map<Code, real>, s: Table)
    requires Valid(t)
    requires s == Survivors(t, ret)
    ensures NonDegenerate(s)
    ensures Valid(Normalize(s))
    ensures CodeSet(Normalize(s)) == CodeSet(t) * ret.Keys
    ensures Priced(Normalize(s), ret)
    ensures forall j :: 0 <= j < |s| ==> s[j] in t
  {
    SurvivorsDistinct(t, ret);
    assert forall j :: 0 <= j < |s| ==> s[j] in s;
    NormalizeKeepsValid(s);
    forall c | c in CodeSet(t) * ret.Keys ensures c in CodeSet(s) {
      var h :| h in t && h.code == c;
    }
  }

  /** When every held instrument has a return, a carry period leaves the
      state exactly as it was. */
  lemma CarryWithoutGaps(t: Table, ret: map<Code, real>)
    requires Valid(t)
    requires Priced(t, ret)
    ensures Carry(t, ret) == t
  {
    assert Survivors(t, ret) == t by {
      SurvivorsAllPriced(t, ret);
    }
    NormalizeIdempotent(t);
  }

  /** A bucket none of whose held instruments lacks a return keeps its rows
      exactly, weights included, through a carry period, even when other
      buckets lose instruments and are renormalised. */
  lemma CarryKeepsPricedBucket(t: Table, ret: map<Code, real>, b: Bucket)
    requires Valid(t)
    requires forall i :: 0 <= i < |t| && t[i].bucket == b ==> t[i].code in ret
    ensures forall h: Holding :: h.bucket == b ==> (h in Carry(t, ret) <==> h in t)
  {
    var s := Survivors(t, ret);
    CarryFacts(t, ret, s);
    forall h: Holding | h.bucket == b && h in t ensures h in s {
      var k :| 0 <= k < |t| && t[k] == h;
    }
    if exists i :: 0 <= i < |t| && t[i].bucket == b {
      var i :| 0 <= i < |t| && t[i].bucket == b;
      assert GroupSum(t, t[i].bucket) == 1.0;
      SurvivorsGroupSum(t, ret, b);
      NormalizeKeepsSummedBucket(s, b);
      KeptBucketRows(s, Normalize(s), b);
    }
  }

  /** A table whose rows of bucket `b` are unchanged, position by position,
      holds the same rows of bucket `b`. */
  lemma KeptBucketRows(s: Table, r: Table, b: Bucket)
    requires |r| == |s|
    requires forall i :: 0 <= i < |s| ==> r[i].bucket == s[i].bucket
    requires forall i :: 0 <= i < |s| && s[i].bucket == b ==> r[i] == s[i]
    ensures forall h: Holding :: h.bucket == b ==> (h in r <==> h in s)
  {
    forall h: Holding | h.bucket == b && h in s ensures h in r {
      var j :| 0 <= j < |s| && s[j] == h;
      assert r[j] == h;
    }
    forall h: Holding | h.bucket == b && h in r ensures h in s {
      var j :| 0 <= j < |r| && r[j] == h;
      assert r[j] == s[j];
    }
  }

  /** Dropping only rows outside bucket `b` keeps the bucket's total. */
  lemma {:induction false} SurvivorsGroupSum(t: Table, ret: map<Code, real>, b: Bucket)
    requires forall i :: 0 <= i < |t| && t[i].bucket == b ==> t[i].code in ret
    ensures GroupSum(Survivors(t, ret), b) == GroupSum(t, b)
  {
    if t != [] {
      SurvivorsGroupSum(t[1..], ret, b);
      var rest := Survivors(t[1..], ret);
      if t[0].code in ret {
        assert ([t[0]] + rest)[1..] == rest;
      } else {
        assert [] + rest == rest;
      }
    }
  }

  lemma {:induction false} SurvivorsAllPriced(t: Table, ret: map<Code, real>)
    requires Priced(t, ret)
    ensures Survivors(t, ret) == t
  {
    if t != [] {
      SurvivorsAllPriced(t[1..], ret);
    }
  }

  // ---------------------------------------------------------------------
  // The month's return: contribution and drift

  /** Each weight compounded by its instrument's return, `weight * (1 + DRTNF1)`. */
  function Drift(t: Table, ret: map<Code, real>): (r: Table)
    requires Priced(t, ret)
    ensures |r| == |t|
    ensures forall i :: 0 <= i < |t| ==>
              r[i].code == t[i].code && r[i].bucket == t[i].bucket &&
              r[i].weight == t[i].weight * (1.0 + ret[t[i].code])
  {
    seq(|t|, i requires 0 <= i < |t| =>
          t[i].(weight := t[i].weight * (1.0 + ret[t[i].code])))
  }

  /** A bucket's drifted total is its old total plus its contribution. */
  lemma DriftGroupSum(t: Table, ret: map<Code, real>, b: Bucket)
    requires Priced(t, ret)
    ensures GroupSum(Drift(t, ret), b) == GroupSum(t, b) + GroupReturn(t, ret, b)
  {
    CompoundedGroupSum(t, Drift(t, ret), ret, b);
  }

  lemma {:induction false} CompoundedGroupSum(t: Table, g: Table, ret: map<Code, real>, b: Bucket)
    requires Priced(t, ret) && |g| == |t|
    requires forall i :: 0 <= i < |t| ==>
               g[i].bucket == t[i].bucket && g[i].weight == t[i].weight * (1.0 + ret[t[i].code])
    ensures GroupSum(g, b) == GroupSum(t, b) + GroupReturn(t, ret, b)
  {
    if t != [] {
      CompoundedGroupSum(t[1..], g[1..], ret, b);
    }
  }

  /** The per-bucket report: the sum of `weight * return` over each of the six
      buckets, 0 for an empty one. It is computed from the table and does not
      change it. */
  function Contribution(t: Table, ret: map<Code, real>): (c: map<Bucket, real>)
    requires Priced(t, ret)
    ensures c.Keys == AllBuckets
  {
    ContributionOverKeys(BucketList, t, ret);
    AllBucketsComplete();
    ContributionOver(BucketList, t, ret)
  }

  /** A bucket that holds no row is still reported, with contribution 0. */
  lemma ContributionOfEmptyBucket(t: Table, ret: map<Code, real>, b: Bucket)
    requires Priced(t, ret)
    requires forall i :: 0 <= i < |t| ==> t[i].bucket != b
    ensures b in Contribution(t, ret) && Contribution(t, ret)[b] == 0.0
  {
    AllBucketsComplete();
    ContributionOverKeys(BucketList, t, ret);
    EmptyGroupReturn(t, ret, b);
  }

  /** A bucket with no rows has a `DW` sum of 0. */
  lemma {:induction false} EmptyGroupReturn(t: Table, ret: map<Code, real>, b: Bucket)
    requires Priced(t, ret)
    requires forall i :: 0 <= i < |t| ==> t[i].bucket != b
    ensures GroupReturn(t, ret, b) == 0.0
  {
    if t != [] {
      assert forall i :: 0 <= i < |t[1..]| ==> t[1..][i] == t[i + 1];
      EmptyGroupReturn(t[1..], ret, b);
    }
  }

  /** The six buckets in report order. */
  const BucketList: seq<Bucket> := [Bucket(Small, S), Bucket(Small, M), Bucket(Small, L),
                                    Bucket(Big, S), Bucket(Big, M), Bucket(Big, L)]

  /** The contribution of each bucket in `bs`, one bucket at a time. */
  function ContributionOver(bs: seq<Bucket>, t: Table, ret: map<Code, real>): map<Bucket, real>
    requires Priced(t, ret)
  {
    if bs == [] then map[] else ContributionOver(bs[1..], t, ret)[bs[0] := GroupReturn(t, ret, bs[0])]
  }

  /** The map built by `ContributionOver` has exactly the buckets of `bs` as
      keys, each mapped to its `DW` sum. */
  lemma {:induction false} ContributionOverKeys(bs: seq<Bucket>, t: Table, ret: map<Code, real>)
    requires Priced(t, ret)
    ensures forall b :: b in ContributionOver(bs, t, ret) <==> b in bs
    ensures forall b :: b in bs ==> ContributionOver(bs, t, ret)[b] == GroupReturn(t, ret, b)
  {
    if bs != [] {
      ContributionOverKeys(bs[1..], t, ret);
      forall b ensures b in bs <==> b == bs[0] || b in bs[1..] {
        if b in bs {
          var k :| 0 <= k < |bs| && bs[k] == b;
          if k > 0 {
            assert bs[1..][k - 1] == b;
          }
        }
      }
    }
  }

  lemma AllBucketsComplete()
    ensures forall b: Bucket :: b in AllBuckets
  {
    forall b: Bucket ensures b in AllBuckets {
      match b
      case Bucket(Small, S) =>
      case Bucket(Small, M) =>
      case Bucket(Small, L) =>
      case Bucket(Big, S) =>
      case Bucket(Big, M) =>
      case Bucket(Big, L) =>
    }
  }

  /** For a normalised table, a non-empty bucket's reported contribution is
      its realised return: its weights, compounded, sum to `1 + contribution`. */
  lemma ContributionIsBucketReturn(t: Table, ret: map<Code, real>, i: int)
    requires Priced(t, ret) && Normalized(t)
    requires 0 <= i < |t|
    ensures t[i].bucket in Contribution(t, ret)
    ensures 1.0 + Contribution(t, ret)[t[i].bucket] == GroupSum(Drift(t, ret), t[i].bucket)
  {
    AllBucketsComplete();
    ContributionOverKeys(BucketList, t, ret);
    DriftGroupSum(t, ret, t[i].bucket);
  }

  /** The end of every month: compound each weight by its return and
      renormalise per bucket. The state stays valid; `DriftStepLaw` states the
      new weights. */
  function DriftStep(t: Table, ret: map<Code, real>): (r: Table)
    requires Valid(t) && Priced(t, ret) && ReturnsAboveMinusOne(ret)
    ensures Valid(r)
  {
    var g := Drift(t, ret);
    DriftFacts(t, ret, g);
    Normalize(g)
  }

  /** Drift law: codes and buckets stay in place, and the new weight of a row
      is `w * (1 + r) / (1 + R)` where `R` is its bucket's contribution. */
  lemma DriftStepLaw(t: Table, ret: map<Code, real>)
    requires Valid(t) && Priced(t, ret) && ReturnsAboveMinusOne(ret)
    ensures var r := DriftStep(t, ret);
            && |r| == |t| && CodeSet(r) == CodeSet(t)
            && (forall i :: 0 <= i < |t| ==> r[i].code == t[i].code && r[i].bucket == t[i].bucket)
            && (forall i :: 0 <= i < |t| ==>
                  1.0 + GroupReturn(t, ret, t[i].bucket) > 0.0 &&
                  r[i].weight == t[i].weight * (1.0 + ret[t[i].code]) / (1.0 + GroupReturn(t, ret, t[i].bucket)))
  {
    DriftFacts(t, ret, Drift(t, ret));
  }

  lemma DriftFacts(t: Table, ret: map<Code, real>, g: Table)
    requires Valid(t) && Priced(t, ret) && ReturnsAboveMinusOne(ret)
    requires g == Drift(t, ret)
    ensures NonDegenerate(g)
    ensures Valid(Normalize(g)) && CodeSet(Normalize(g)) == CodeSet(t)
    ensures forall i :: 0 <= i < |t| ==>
              1.0 + GroupReturn(t, ret, t[i].bucket) > 0.0 &&
              Normalize(g)[i].weight == t[i].weight * (1.0 + ret[t[i].code]) / (1.0 + GroupReturn(t, ret, t[i].bucket))
  {
    DriftPositive(t, ret, g);
    SameCodes(t, g);
    NormalizeKeepsValid(g);
    SameCodes(g, Normalize(g));
    forall i | 0 <= i < |t|
      ensures 1.0 + GroupReturn(t, ret, t[i].bucket) > 0.0
      ensures Normalize(g)[i].weight == t[i].weight * (1.0 + ret[t[i].code]) / (1.0 + GroupReturn(t, ret, t[i].bucket))
    {
      DriftLaw(t, ret, i);
    }
  }

  lemma DriftPositive(t: Table, ret: map<Code, real>, g: Table)
    requires Positive(t) && Priced(t, ret) && ReturnsAboveMinusOne(ret)
    requires g == Drift(t, ret)
    ensures Positive(g) && NonDegenerate(g)
  {
    forall i | 0 <= i < |t| ensures g[i].weight > 0.0 {
      var w, f := t[i].weight, 1.0 + ret[t[i].code];
      assert g[i].weight == w * f;
      assert w > 0.0 && f > 0.0;
    }
    PositiveNonDegenerate(g);
  }

  /** Drift law for one row of a normalised table: its new weight is
      `w * (1 + r) / (1 + R)`, `R` being its bucket's contribution, and
      `1 + R` is positive. */
  lemma DriftLaw(t: Table, ret: map<Code, real>, i: int)
    requires Normalized(t) && Positive(t) && Priced(t, ret) && ReturnsAboveMinusOne(ret)
    requires 0 <= i < |t|
    ensures NonDegenerate(Drift(t, ret))
    ensures 1.0 + GroupReturn(t, ret, t[i].bucket) > 0.0
    ensures Normalize(Drift(t, ret))[i].weight
            == t[i].weight * (1.0 + ret[t[i].code]) / (1.0 + GroupReturn(t, ret, t[i].bucket))
  {
    var g := Drift(t, ret);
    var b := t[i].bucket;
    DriftPositive(t, ret, g);
    PositiveNonDegenerate(g);
    DriftGroupSum(t, ret, b);
    assert g[i].bucket == b;
    assert Normalize(g)[i].weight == g[i].weight / GroupSum(g, b);
    SameQuotient(g[i].weight, GroupSum(g, b),
                 t[i].weight * (1.0 + ret[t[i].code]), 1.0 + GroupReturn(t, ret, b));
  }

  lemma SameQuotient(x: real, y: real, x': real, y': real)
    requires y != 0.0 && x == x' && y == y'
    ensures x / y == x' / y'
  {
  }
}
