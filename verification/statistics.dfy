/** The `/statistics` route: the month's total sale amount (an aggregate
    `$match` + `$group` `$sum`) and two `countDocuments` calls for
    `sold: true` and `sold: false`. */
module Stats {
  import opened Wrappers
  import opened Seqs
  import opened Transactions
  import opened Queries

  datatype Statistics = Statistics(totalSaleAmount: real, totalSoldItems: nat, totalNotSoldItems: nat)

  predicate IsSold(t: Transaction)
  {
    t.sold == Some(true)
  }

  predicate IsNotSold(t: Transaction)
  {
    t.sold == Some(false)
  }

  predicate SoldMissing(t: Transaction)
  {
    t.sold.None?
  }

  /** `$sum: "$price"` over a sequence of records. */
  function SumPrices(s: seq<Transaction>): (total: real)
    ensures |s| == 0 ==> total == 0.0
    ensures (forall i :: 0 <= i < |s| ==> 0.0 <= s[i].price) ==> 0.0 <= total
    decreases |s|
  {
    if |s| == 0 then 0.0 else SumPrices(s[..|s| - 1]) + s[|s| - 1].price
  }

  /** The `countDocuments` filter `{ month, sold }`. */
  function SoldQuery(month: Option<int>, sold: bool): (q: Transaction -> bool)
    ensures forall t :: q(t) <==> MatchesMonth(month, t) && (if sold then IsSold(t) else IsNotSold(t))
    ensures month.None? ==> forall t :: !q(t)
  {
    t => MatchesMonth(month, t) && t.sold == Some(sold)
  }

  /** The `countDocuments({ month, sold })` call counts the month's records
      whose `sold` is that boolean. */
  lemma SoldCount(store: seq<Transaction>, month: Option<int>, sold: bool)
    ensures Count(store, SoldQuery(month, sold))
         == Count(MonthRecords(store, month), if sold then IsSold else IsNotSold)
  {
    CountOfFilter(store, InMonth(month), if sold then IsSold else IsNotSold, SoldQuery(month, sold));
  }

  /** Every record is sold, not sold, or has no `sold` value, and only one of these. */
  lemma {:induction false} SoldSplit(s: seq<Transaction>)
    ensures Count(s, IsSold) + Count(s, IsNotSold) + Count(s, SoldMissing) == |s|
    decreases |s|
  {
    if |s| > 0 {
      var init, x := s[..|s| - 1], s[|s| - 1];
      SoldSplit(init);
      assert Count(s, IsSold) == Count(init, IsSold) + (if IsSold(x) then 1 else 0);
      assert Count(s, IsNotSold) == Count(init, IsNotSold) + (if IsNotSold(x) then 1 else 0);
      assert Count(s, SoldMissing) == Count(init, SoldMissing) + (if SoldMissing(x) then 1 else 0);
      match x.sold {
        case None =>
        case Some(_) =>
      }
    }
  }

  /** The sold and unsold counts together cover the records exactly when
      every record has a boolean `sold`. */
  lemma SoldCountsCover(recs: seq<Transaction>)
    ensures Count(recs, IsSold) + Count(recs, IsNotSold) <= |recs|
    ensures Count(recs, IsSold) + Count(recs, IsNotSold) == |recs| <==>
              forall i :: 0 <= i < |recs| ==> recs[i].sold.Some?
  {
    SoldSplit(recs);
    assert Count(recs, SoldMissing) == 0 <==> forall i :: 0 <= i < |recs| ==> !SoldMissing(recs[i]);
  }

  function GetStatistics(store: seq<Transaction>, month: Option<int>): (st: Statistics)
    ensures var recs := MonthRecords(store, month);
            && st.totalSaleAmount == SumPrices(recs)
            && st.totalSoldItems == Count(recs, IsSold)
            && st.totalNotSoldItems == Count(recs, IsNotSold)
    ensures var recs := MonthRecords(store, month);
            && st.totalSoldItems + st.totalNotSoldItems <= |recs|
            && (st.totalSoldItems + st.totalNotSoldItems == |recs| <==>
                  forall i :: 0 <= i < |recs| ==> recs[i].sold.Some?)
    ensures MonthRecords(store, month) == [] ==> st == Statistics(0.0, 0, 0)
  {
    var recs := MonthRecords(store, month);
    var sold := Count(store, SoldQuery(month, true));
    var notSold := Count(store, SoldQuery(month, false));
    SoldCount(store, month, true);
    SoldCount(store, month, false);
    SoldCountsCover(recs);
    // `totalSaleAmount[0]?.total || 0`: no matching record gives 0.
    var total := if |recs| == 0 then 0.0 else SumPrices(recs);
    Statistics(total, sold, notSold)
  }
}
