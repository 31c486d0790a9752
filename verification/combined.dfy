/** The `/combined` route: the month's records, a grouped statistics pass
    using `$cond` on `sold`, a `$bucket` price histogram and the category
    histogram, each computed over the same month filter. */
module Combined {
  import opened Wrappers
  import opened Seqs
  import opened Histograms
  import opened Transactions
  import opened Queries
  import opened PriceBins
  import opened Stats
  import opened Charts

  /** The one document of the `$group` with `_id: null`. */
  datatype CombinedStats = CombinedStats(total: real, sold: nat, notSold: nat)

  /** The `$bucket` result: one count per bucket, and the count of the
      `default` output (named "901-above" in the route), which receives the
      prices below the first boundary. */
  datatype BucketChart = BucketChart(buckets: seq<Tally<Bin>>, other: nat)

  datatype CombinedView = CombinedView(
    transactions: seq<Transaction>,
    statistics: Option<CombinedStats>,
    barChart: BucketChart,
    pieChart: seq<Tally<string>>)

  /** `$cond: ["$sold", 0, 1]`: a record whose `sold` is false or missing counts as not sold. */
  predicate CondNotSold(t: Transaction)
    ensures CondNotSold(t) <==> IsNotSold(t) || SoldMissing(t)
  {
    match t.sold
    case None => true
    case Some(sold) => !sold
  }

  /** The `$cond` sum counts the records with `sold == false` and the records
      with no `sold` at all. */
  lemma CondNotSoldCount(recs: seq<Transaction>)
    ensures Count(recs, CondNotSold) == Count(recs, IsNotSold) + Count(recs, SoldMissing)
  {
  }

  predicate BelowBoundaries(t: Transaction)
  {
    t.price < 0.0
  }

  predicate WithinBoundaries(t: Transaction)
  {
    0.0 <= t.price
  }

  /** The grouped statistics pass. A `$group` over no documents emits no
      document at all, hence `None` for a month without records. */
  function GroupStatistics(recs: seq<Transaction>): (st: Option<CombinedStats>)
    ensures st.None? <==> recs == []
    ensures st.Some? ==> st.value.sold + st.value.notSold == |recs|
    ensures st.Some? ==> st.value.sold == Count(recs, IsSold) && st.value.total == SumPrices(recs)
  {
    if |recs| == 0 then None
    else
      CountComplement(recs, IsSold, CondNotSold);
      Some(CombinedStats(SumPrices(recs), Count(recs, IsSold), Count(recs, CondNotSold)))
  }

  /** A record falls into one bucket when its price is at least the first
      boundary, and into none otherwise. */
  lemma BucketHits(t: Transaction)
    ensures Hits(Buckets, PriceInBin, t) == (if WithinBoundaries(t) then 1 else 0)
  {
    var p := MatchedBy(PriceInBin, t);
    if WithinBoundaries(t) {
      BucketOfPrice(t.price);
      var k := BucketSlot(t.price.Floor);
      forall a, b | 0 <= a < b < |Buckets| && p(Buckets[a])
        ensures !p(Buckets[b])
      {
        assert PriceInBin(Buckets[a], t);
        assert a == k;
        assert !PriceInBin(Buckets[b], t);
      }
      assert PriceInBin(Buckets[k], t);
      CountExactlyOne(Buckets, p, k);
    } else {
      NegativeOutsideBuckets(t.price);
      forall i | 0 <= i < |Buckets|
        ensures !p(Buckets[i])
      {
        assert !PriceInBin(Buckets[i], t);
      }
    }
  }

  /** `$bucket` over the month's records. */
  function BucketPrices(recs: seq<Transaction>): (chart: BucketChart)
    ensures |chart.buckets| == |Buckets|
    ensures forall i :: 0 <= i < |chart.buckets| ==>
              chart.buckets[i].key == Buckets[i] &&
              chart.buckets[i].count == Count(recs, Matching(PriceInBin, Buckets[i]))
    ensures chart.other == Count(recs, BelowBoundaries)
    ensures Total(chart.buckets) + chart.other == |recs|
  {
    BucketTotal(recs);
    BucketChart(Tallies(recs, Buckets, PriceInBin), Count(recs, BelowBoundaries))
  }

  /** The buckets count exactly the records with a non-negative price, and
      the `default` output the rest, so every record is counted once. */
  lemma BucketTotal(recs: seq<Transaction>)
    ensures Total(Tallies(recs, Buckets, PriceInBin)) == Count(recs, WithinBoundaries)
    ensures Total(Tallies(recs, Buckets, PriceInBin)) + Count(recs, BelowBoundaries) == |recs|
  {
    TotalIsHitSum(recs, Buckets, PriceInBin);
    CountComplement(recs, WithinBoundaries, BelowBoundaries);
    forall i | 0 <= i < |recs|
      ensures Hits(Buckets, PriceInBin, recs[i]) == (if WithinBoundaries(recs[i]) then 1 else 0)
    {
      BucketHits(recs[i]);
    }
    HitSumIndicator(recs, Buckets, PriceInBin, WithinBoundaries);
  }

  function CombinedReport(store: seq<Transaction>, month: Option<int>): (v: CombinedView)
    ensures v.transactions == MonthRecords(store, month)
    ensures v.statistics.None? <==> v.transactions == []
    ensures v.statistics.Some? ==> v.statistics.value.sold + v.statistics.value.notSold == |v.transactions|
    ensures Total(v.barChart.buckets) + v.barChart.other == |v.transactions|
    ensures Total(v.pieChart) == |v.transactions|
  {
    var recs := MonthRecords(store, month);
    CombinedView(recs, GroupStatistics(recs), BucketPrices(recs), PieChart(store, month))
  }

  /** The combined view's statistics agree with the statistics route, except
      that `$cond` counts a record without `sold` as not sold while
      `countDocuments({ sold: false })` does not. */
  lemma CombinedAgreesWithStatistics(store: seq<Transaction>, month: Option<int>)
    ensures var v, st := CombinedReport(store, month), GetStatistics(store, month);
            v.statistics.Some? ==>
              && v.statistics.value.total == st.totalSaleAmount
              && v.statistics.value.sold == st.totalSoldItems
              && v.statistics.value.notSold == st.totalNotSoldItems + Count(v.transactions, SoldMissing)
  {
    CondNotSoldCount(MonthRecords(store, month));
  }

  /** The combined view's pie chart is the pie-chart route's. */
  lemma CombinedPieIsPieChart(store: seq<Transaction>, month: Option<int>)
    ensures CombinedReport(store, month).pieChart == PieChart(store, month)
  {
  }
}
