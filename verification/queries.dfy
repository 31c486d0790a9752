/** The month filter `{ month: parseInt(month) }` that every route of
    routes/api.js applies first. */
module Queries {
  import opened Wrappers
  import opened Seqs
  import opened Transactions

  /** The record matches the month filter. `month` is the parsed query
      parameter; `None` stands for NaN, which equals no stored month. */
  predicate MatchesMonth(month: Option<int>, t: Transaction)
    ensures month.None? ==> !MatchesMonth(month, t)
    ensures MatchesMonth(month, t) && MonthConsistent(t) ==>
              month == Some(CalendarMonth(t.dateOfSale)) && 1 <= month.value <= 12
  {
    month.Some? && t.month == month
  }

  /** `MatchesMonth` as a filter. */
  function InMonth(month: Option<int>): Transaction -> bool
  {
    t => MatchesMonth(month, t)
  }

  /** The records of `store` selected by the month filter, in store order. */
  function MonthRecords(store: seq<Transaction>, month: Option<int>): (recs: seq<Transaction>)
    ensures forall t :: t in recs ==> t in store && t.month == month && month.Some?
    ensures forall t :: t in store && MatchesMonth(month, t) ==> t in recs
    ensures |recs| <= |store|
    ensures month.None? ==> recs == []
  {
    Filter(store, InMonth(month))
  }
}
