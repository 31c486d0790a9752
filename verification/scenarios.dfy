/** Worked examples over a one-record store: seeding followed by each route. */
module Scenarios {
  import opened Wrappers
  import opened Seqs
  import opened Histograms
  import opened Transactions
  import opened Queries
  import opened PriceBins
  import opened Seeding
  import opened Listing
  import opened Text
  import opened Stats
  import opened Charts
  import opened Combined

  /** A record as fetched: sold on 5 March 2023 (month index 2), no month yet. */
  const Mug := Transaction("Mug", "Red mug", 150.0, "A", Date(2023, 2, 5), Some(true), None)

  lemma SeededMonth()
    ensures Init([], [Mug]) == [Mug.(month := Some(3))]
    ensures MonthRecords(Init([], [Mug]), Some(3)) == [Mug.(month := Some(3))]
  {
  }

  lemma SeededStatistics()
    ensures GetStatistics(Init([], [Mug]), Some(3)) == Statistics(150.0, 1, 0)
  {
    SeededMonth();
    var recs := [Mug.(month := Some(3))];
    assert recs[..0] == [];
    assert Count(recs, IsSold) == 1;
    assert Count(recs, IsNotSold) == 0;
    assert SumPrices(recs) == 150.0;
  }

  lemma SeededBarChart()
    ensures var chart := BarChart(Init([], [Mug]), Some(3));
            chart[1].count == 1 && forall i :: 0 <= i < |chart| && i != 1 ==> chart[i].count == 0
  {
    SeededMonth();
    var recs := [Mug.(month := Some(3))];
    assert recs[..0] == [];
    BarRangeOfWholePrice(150.0);
    forall i | 0 <= i < |BarRanges|
      ensures Count(recs, Matching(PriceInBin, BarRanges[i])) == (if i == 1 then 1 else 0)
    {
      assert PriceInBin(BarRanges[i], recs[0]) <==> i == 1;
    }
  }

  lemma SeededPieChart()
    ensures PieChart(Init([], [Mug]), Some(3)) == [Tally("A", 1)]
  {
    SeededMonth();
    var recs := [Mug.(month := Some(3))];
    assert recs[..0] == [];
    assert Categories(recs) == ["A"];
    assert InCategory("A", recs[0]);
    assert Count(recs, Matching(InCategory, "A")) == 1;
  }

  lemma SearchByPrice()
    ensures ListTransactions(Init([], [Mug]), Some(3), Some(SearchParam("150", Some(150.0))), None, None)
         == Some(Init([], [Mug]))
  {
    SeededMonth();
    var store := Init([], [Mug]);
    var q := Some(SearchParam("150", Some(150.0)));
    assert ListMatches(Some(3), q, store[0]);
    assert Filter(store, ListFilter(Some(3), q)) == Filter(store[..0], ListFilter(Some(3), q)) + [store[0]];
    ListDefaults(store, Some(3), q);
  }

  /** A text without the letter z does not contain "zzz". */
  lemma AbsentLetter(s: string)
    requires 'z' !in s
    ensures !IsInfix("zzz", s)
  {
    InfixAtOffset("zzz", s);
    forall k | 0 <= k <= |s|
      ensures !IsPrefix("zzz", s[k..])
    {
      if k + 3 <= |s| {
        assert s[k..][0] == s[k];
      }
    }
  }

  /** "zzz" occurs in neither the title nor the description, and is not a number. */
  lemma ZzzMatchesNothing()
    ensures !SearchMatches(SearchParam("zzz", None), Mug.(month := Some(3)))
  {
    assert Lower("zzz") == "zzz";
    assert Lower("Mug") == "mug";
    assert Lower("Red mug") == "red mug";
    AbsentLetter("mug");
    AbsentLetter("red mug");
  }

  lemma SearchWithoutMatchFilters(store: seq<Transaction>)
    requires store == [Mug.(month := Some(3))]
    ensures Filter(store, ListFilter(Some(3), Some(SearchParam("zzz", None)))) == []
  {
    ZzzMatchesNothing();
    assert !ListFilter(Some(3), Some(SearchParam("zzz", None)))(store[0]);
  }

  lemma SearchWithoutMatch()
    ensures ListTransactions(Init([], [Mug]), Some(3), Some(SearchParam("zzz", None)), None, None) == Some([])
  {
    SeededMonth();
    var store := Init([], [Mug]);
    SearchWithoutMatchFilters(store);
    ListDefaults(store, Some(3), Some(SearchParam("zzz", None)));
  }

  /** One record priced exactly 100: the bar chart counts it under "0-100",
      the combined view's `$bucket` under the bucket starting at 100. */
  lemma PriceHundredAcrossRoutes()
    ensures var store := [Mug.(price := 100.0, month := Some(3))];
            && BarChart(store, Some(3))[0].count == 1
            && CombinedReport(store, Some(3)).barChart.buckets[0].count == 0
            && CombinedReport(store, Some(3)).barChart.buckets[1].count == 1
  {
    var store := [Mug.(price := 100.0, month := Some(3))];
    assert store[..0] == [];
    var recs := MonthRecords(store, Some(3));
    assert recs == store by {
      assert Filter(store, InMonth(Some(3))) == Filter(store[..0], InMonth(Some(3))) + [store[0]];
    }
    assert PriceInBin(BarRanges[0], store[0]);
    assert !PriceInBin(Buckets[0], store[0]);
    assert PriceInBin(Buckets[1], store[0]);
  }
}
