/** The `/init` route: every fetched record gets the month of its sale date,
    then the store is emptied (`deleteMany({})`) and refilled with the
    processed records (`insertMany`). The fetch itself is the `fetched`
    parameter. */
module Seeding {
  import opened Wrappers
  import opened Transactions
  import opened Queries

  /** The store after seeding. `current` is what the store held before; the
      delete-all step discards it, so the result does not depend on it. */
  function Init(current: seq<Transaction>, fetched: seq<Transaction>): (store: seq<Transaction>)
    ensures |store| == |fetched|
    ensures forall i :: 0 <= i < |fetched| ==>
              SameExceptMonth(store[i], fetched[i]) && MonthConsistent(store[i])
    ensures forall i :: 0 <= i < |fetched| ==> store[i] == PreSave(fetched[i])
  {
    seq(|fetched|, i requires 0 <= i < |fetched| =>
          fetched[i].(month := Some(CalendarMonth(fetched[i].dateOfSale))))
  }

  /** After seeding, a month that no fetched record was sold in lists nothing,
      whatever the store held before. */
  lemma InitReplacesStore(current: seq<Transaction>, fetched: seq<Transaction>, m: int)
    requires forall i :: 0 <= i < |fetched| ==> CalendarMonth(fetched[i].dateOfSale) != m
    ensures MonthRecords(Init(current, fetched), Some(m)) == []
  {
  }

  /** After seeding, every record of every month is one of the fetched
      records with its month stamped; nothing from before survives. */
  lemma InitKeepsOnlyFetched(current: seq<Transaction>, fetched: seq<Transaction>, month: Option<int>)
    ensures forall t :: t in MonthRecords(Init(current, fetched), month) ==>
              exists i :: 0 <= i < |fetched| && t == PreSave(fetched[i])
  {
  }
}
