/** The transaction record of the schema in models/Transaction.js and its
    pre-save hook, which derives `month` from `dateOfSale`. */
module Transactions {
  import opened Wrappers

  /** A 0-based month, as a valid date's `getMonth()` returns it. */
  type MonthIndex = i: int | 0 <= i < 12

  /** A sale date, reduced to the calendar parts the model needs. */
  datatype Date = Date(year: int, monthIndex: MonthIndex, day: int)

  /** One sale record. `sold` is `None` when the document has no boolean
      `sold` field; `month` is `None` when no month has been stored. */
  datatype Transaction = Transaction(
    title: string,
    description: string,
    price: real,
    category: string,
    dateOfSale: Date,
    sold: Option<bool>,
    month: Option<int>)

  /** The 1-based calendar month of a date: `getMonth() + 1`. */
  function CalendarMonth(d: Date): (m: int)
    ensures 1 <= m <= 12
  {
    d.monthIndex + 1
  }

  /** `a` and `b` agree on every schema field except `month`. */
  predicate SameExceptMonth(a: Transaction, b: Transaction)
  {
    && a.title == b.title
    && a.description == b.description
    && a.price == b.price
    && a.category == b.category
    && a.dateOfSale == b.dateOfSale
    && a.sold == b.sold
  }

  /** The record's stored month is the calendar month of its sale date. */
  predicate MonthConsistent(t: Transaction)
  {
    t.month == Some(CalendarMonth(t.dateOfSale))
  }

  /** The schema's `pre("save")` hook: `month` is recomputed from `dateOfSale`,
      whatever the caller put there. */
  function PreSave(t: Transaction): (r: Transaction)
    ensures SameExceptMonth(r, t)
    ensures MonthConsistent(r)
    ensures r.month.Some? && 1 <= r.month.value <= 12
  {
    t.(month := Some(CalendarMonth(t.dateOfSale)))
  }

  /** The hook leaves a record alone exactly when its month already agrees with its date. */
  lemma PreSaveFixpoint(t: Transaction)
    ensures PreSave(t) == t <==> MonthConsistent(t)
  {
  }

  /** Two records save identically exactly when they agree on every schema
      field but `month`; in particular a month supplied by the caller has no
      influence on the saved record. */
  lemma PreSaveDependsOnlyOnFields(a: Transaction, b: Transaction)
    ensures PreSave(a) == PreSave(b) <==> SameExceptMonth(a, b)
  {
  }
}
