/** The `/bar-chart` route (one `countDocuments` per fixed price range) and
    the `/pie-chart` route (`$match` then `$group` by category). */
module Charts {
  import opened Wrappers
  import opened Seqs
  import opened Histograms
  import opened Transactions
  import opened Queries
  import opened PriceBins

  predicate PriceInBin(b: Bin, t: Transaction)
  {
    InBin(t.price, b)
  }

  /** The bar chart's `countDocuments` filter `{ month, price: { $gte: min, $lte: max } }`. */
  function RangeQuery(month: Option<int>): (q: (Bin, Transaction) -> bool)
    ensures forall i, j, t :: 0 <= i < j < |BarRanges| && q(BarRanges[i], t) ==> !q(BarRanges[j], t)
    ensures month.None? ==> forall b, t :: !q(b, t)
  {
    forall t: Transaction {
      BarRangesDisjoint(t.price);
    }
    (b, t) => MatchesMonth(month, t) && InBin(t.price, b)
  }

  predicate WholeNonNegativePrice(t: Transaction)
  {
    0.0 <= t.price && IsWhole(t.price)
  }

  /** How many bar ranges count one record: none outside the month, at most
      one inside it, exactly one for a non-negative whole price. */
  lemma BarHits(month: Option<int>, t: Transaction)
    ensures Hits(BarRanges, RangeQuery(month), t) <= (if MatchesMonth(month, t) then 1 else 0)
    ensures MatchesMonth(month, t) && WholeNonNegativePrice(t) ==> Hits(BarRanges, RangeQuery(month), t) == 1
  {
    var p := MatchedBy(RangeQuery(month), t);
    if MatchesMonth(month, t) {
      BarRangesDisjoint(t.price);
      CountAtMostOne(BarRanges, p);
      if WholeNonNegativePrice(t) {
        BarRangeOfWholePrice(t.price);
        CountExactlyOne(BarRanges, p, BarSlot(t.price.Floor));
      }
    } else {
      assert forall i :: 0 <= i < |BarRanges| ==> !p(BarRanges[i]);
    }
  }

  /** Each range's `countDocuments` equals the number of the month's records in that range. */
  lemma BarCountIsMonthCount(store: seq<Transaction>, month: Option<int>, b: Bin)
    ensures Count(store, Matching(RangeQuery(month), b)) == Count(MonthRecords(store, month), Matching(PriceInBin, b))
  {
    var both, p, q := Matching(RangeQuery(month), b), InMonth(month), Matching(PriceInBin, b);
    forall i | 0 <= i < |store|
      ensures both(store[i]) <==> p(store[i]) && q(store[i])
    {
      var t := store[i];
      assert both(t) == RangeQuery(month)(b, t);
      assert q(t) == PriceInBin(b, t);
    }
    CountOfFilter(store, p, q, both);
  }

  /** Entry i of the range histogram is range i, counting the month's records in it. */
  lemma BarCounts(store: seq<Transaction>, month: Option<int>)
    ensures var chart := Tallies(store, BarRanges, RangeQuery(month));
            forall i :: 0 <= i < |chart| ==>
              chart[i].key == BarRanges[i] &&
              chart[i].count == Count(MonthRecords(store, month), Matching(PriceInBin, BarRanges[i]))
  {
    forall i | 0 <= i < |BarRanges|
      ensures Count(store, Matching(RangeQuery(month), BarRanges[i]))
           == Count(MonthRecords(store, month), Matching(PriceInBin, BarRanges[i]))
    {
      BarCountIsMonthCount(store, month, BarRanges[i]);
    }
  }

  /** Summing `BarHits` over the store: the ranges together count at most
      the month's records. */
  lemma BarHitSumBelow(store: seq<Transaction>, month: Option<int>)
    ensures HitSum(store, BarRanges, RangeQuery(month)) <= Count(store, InMonth(month))
  {
    forall i | 0 <= i < |store|
      ensures Hits(BarRanges, RangeQuery(month), store[i]) <= (if InMonth(month)(store[i]) then 1 else 0)
    {
      BarHits(month, store[i]);
    }
    HitSumBelowIndicator(store, BarRanges, RangeQuery(month), InMonth(month));
  }

  /** Summing `BarHits` over the store when the month's prices are
      non-negative whole numbers: the ranges count each month record once. */
  lemma BarHitSumExact(store: seq<Transaction>, month: Option<int>)
    requires forall t :: t in MonthRecords(store, month) ==> WholeNonNegativePrice(t)
    ensures HitSum(store, BarRanges, RangeQuery(month)) == Count(store, InMonth(month))
  {
    forall i | 0 <= i < |store|
      ensures Hits(BarRanges, RangeQuery(month), store[i]) == (if InMonth(month)(store[i]) then 1 else 0)
    {
      var t := store[i];
      if MatchesMonth(month, t) {
        assert t in MonthRecords(store, month);
      }
      BarHits(month, t);
    }
    HitSumIndicator(store, BarRanges, RangeQuery(month), InMonth(month));
  }

  /** The ranges count no month record twice, and every one when all prices
      are non-negative whole numbers. */
  lemma BarTotal(store: seq<Transaction>, month: Option<int>)
    ensures Total(Tallies(store, BarRanges, RangeQuery(month))) <= |MonthRecords(store, month)|
    ensures (forall t :: t in MonthRecords(store, month) ==> WholeNonNegativePrice(t)) ==>
              Total(Tallies(store, BarRanges, RangeQuery(month))) == |MonthRecords(store, month)|
  {
    TotalIsHitSum(store, BarRanges, RangeQuery(month));
    assert |MonthRecords(store, month)| == Count(store, InMonth(month));
    BarHitSumBelow(store, month);
    if forall t :: t in MonthRecords(store, month) ==> WholeNonNegativePrice(t) {
      BarHitSumExact(store, month);
    }
  }

  /** The bar chart: one entry per fixed range, in the fixed order. */
  function BarChart(store: seq<Transaction>, month: Option<int>): (chart: seq<Tally<Bin>>)
    ensures |chart| == |BarRanges|
    ensures forall i :: 0 <= i < |chart| ==>
              chart[i].key == BarRanges[i] &&
              chart[i].count == Count(MonthRecords(store, month), Matching(PriceInBin, BarRanges[i]))
    ensures Total(chart) <= |MonthRecords(store, month)|
    ensures (forall t :: t in MonthRecords(store, month) ==> WholeNonNegativePrice(t)) ==>
              Total(chart) == |MonthRecords(store, month)|
  {
    BarTotal(store, month);
    BarCounts(store, month);
    Tallies(store, BarRanges, RangeQuery(month))
  }

  predicate InCategory(c: string, t: Transaction)
  {
    t.category == c
  }

  /** The distinct categories of `s`, in order of first appearance. */
  function Categories(s: seq<Transaction>): (cats: seq<string>)
    ensures forall i, j :: 0 <= i < j < |cats| ==> cats[i] != cats[j]
    ensures forall c :: c in cats <==> exists t :: t in s && t.category == c
    decreases |s|
  {
    if |s| == 0 then []
    else
      var init, x := s[..|s| - 1], s[|s| - 1];
      assert s == init + [x];
      var prev := Categories(init);
      if x.category in prev then prev else prev + [x.category]
  }

  /** The pie chart: one entry per distinct category of the month's records.
      `$group` emits its groups in no guaranteed order; this model lists them
      by first appearance. */
  function PieChart(store: seq<Transaction>, month: Option<int>): (pie: seq<Tally<string>>)
    ensures forall i, j :: 0 <= i < j < |pie| ==> pie[i].key != pie[j].key
    ensures forall c :: c in Keys(pie) <==> exists t :: t in MonthRecords(store, month) && t.category == c
    ensures forall i :: 0 <= i < |pie| ==>
              1 <= pie[i].count &&
              pie[i].count == Count(MonthRecords(store, month), Matching(InCategory, pie[i].key))
    ensures Total(pie) == |MonthRecords(store, month)|
  {
    var recs := MonthRecords(store, month);
    var pie := Tallies(recs, Categories(recs), InCategory);
    PieFacts(recs, pie);
    pie
  }

  /** The category histogram of any records: distinct keys that are exactly
      the categories present, each with a positive and exact count, summing
      to the number of records. */
  lemma PieFacts(recs: seq<Transaction>, pie: seq<Tally<string>>)
    requires pie == Tallies(recs, Categories(recs), InCategory)
    ensures forall i, j :: 0 <= i < j < |pie| ==> pie[i].key != pie[j].key
    ensures forall c :: c in Keys(pie) <==> exists t :: t in recs && t.category == c
    ensures forall i :: 0 <= i < |pie| ==>
              1 <= pie[i].count && pie[i].count == Count(recs, Matching(InCategory, pie[i].key))
    ensures Total(pie) == |recs|
  {
    PieTotal(recs);
    PieCountsPositive(recs);
    PieKeys(recs);
  }

  /** The pie chart's keys are the categories, in order. */
  lemma PieKeys(recs: seq<Transaction>)
    ensures Keys(Tallies(recs, Categories(recs), InCategory)) == Categories(recs)
  {
  }

  /** A record falls under exactly one of a list of distinct categories that includes its own. */
  lemma CategoryHits(cats: seq<string>, t: Transaction)
    requires forall i, j :: 0 <= i < j < |cats| ==> cats[i] != cats[j]
    requires t.category in cats
    ensures Hits(cats, InCategory, t) == 1
  {
    var k :| 0 <= k < |cats| && cats[k] == t.category;
    var p := MatchedBy(InCategory, t);
    forall a, b | 0 <= a < b < |cats| && p(cats[a])
      ensures !p(cats[b])
    {
      assert InCategory(cats[a], t) && cats[a] != cats[b];
      assert !InCategory(cats[b], t);
    }
    assert InCategory(cats[k], t);
    CountExactlyOne(cats, p, k);
  }

  /** Every record falls under exactly one category, so the counts add up to the records. */
  lemma PieTotal(recs: seq<Transaction>)
    ensures Total(Tallies(recs, Categories(recs), InCategory)) == |recs|
  {
    var cats := Categories(recs);
    forall i | 0 <= i < |recs|
      ensures Hits(cats, InCategory, recs[i]) == 1
    {
      var t := recs[i];
      assert t in recs;
      assert t.category in cats;
      CategoryHits(cats, t);
    }
    TotalIsHitSum(recs, cats, InCategory);
    HitSumExact(recs, cats, InCategory);
  }

  /** Every listed category has at least one record. */
  lemma PieCountsPositive(recs: seq<Transaction>)
    ensures var cats := Categories(recs);
            forall i :: 0 <= i < |cats| ==> 1 <= Count(recs, Matching(InCategory, cats[i]))
  {
    var cats := Categories(recs);
    forall i | 0 <= i < |cats|
      ensures 1 <= Count(recs, Matching(InCategory, cats[i]))
    {
      var c := cats[i];
      assert c in cats;
      var t :| t in recs && t.category == c;
      var j :| 0 <= j < |recs| && recs[j] == t;
      assert InCategory(c, recs[j]);
    }
  }
}
