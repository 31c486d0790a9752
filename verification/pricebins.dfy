/** The two price-binning schemes of routes/api.js: the bar chart's ten
    inclusive ranges `{ $gte: min, $lte: max }`, and the combined view's
    `$bucket` boundaries, read as half-open bins `[b_i, b_{i+1})`. */
module PriceBins {
  import opened Wrappers

  /** A price bin. `hi == None` is the upper bound `Infinity`; `closedAbove`
      says whether the upper bound itself belongs to the bin. The lower
      bound always does. */
  datatype Bin = Bin(name: string, lo: real, hi: Option<real>, closedAbove: bool)

  predicate InBin(p: real, b: Bin)
  {
    && b.lo <= p
    && match b.hi
       case None => true
       case Some(h) => if b.closedAbove then p <= h else p < h
  }

  /** The bar chart's ranges, in the order they are reported. */
  const BarRanges: seq<Bin> := [
    Bin("0-100", 0.0, Some(100.0), true),
    Bin("101-200", 101.0, Some(200.0), true),
    Bin("201-300", 201.0, Some(300.0), true),
    Bin("301-400", 301.0, Some(400.0), true),
    Bin("401-500", 401.0, Some(500.0), true),
    Bin("501-600", 501.0, Some(600.0), true),
    Bin("601-700", 601.0, Some(700.0), true),
    Bin("701-800", 701.0, Some(800.0), true),
    Bin("801-900", 801.0, Some(900.0), true),
    Bin("901-above", 901.0, None, true)
  ]

  /** The combined view's buckets for the boundaries
      `[0, 100, 200, ..., 900, Infinity]`; each is named by its lower
      boundary, which `$bucket` reports as the bucket's `_id`. */
  const Buckets: seq<Bin> := [
    Bin("0", 0.0, Some(100.0), false),
    Bin("100", 100.0, Some(200.0), false),
    Bin("200", 200.0, Some(300.0), false),
    Bin("300", 300.0, Some(400.0), false),
    Bin("400", 400.0, Some(500.0), false),
    Bin("500", 500.0, Some(600.0), false),
    Bin("600", 600.0, Some(700.0), false),
    Bin("700", 700.0, Some(800.0), false),
    Bin("800", 800.0, Some(900.0), false),
    Bin("900", 900.0, None, false)
  ]

  /** A price with no fractional part. */
  predicate IsWhole(p: real)
  {
    p.Floor as real == p
  }

  /** Reference definition of the bar range a whole price belongs to. */
  function BarSlot(n: nat): (i: nat)
    ensures i < |BarRanges|
  {
    if n <= 100 then 0 else if n > 900 then 9 else (n - 1) / 100
  }

  /** Reference definition of the bucket a non-negative price belongs to, given its floor. */
  function BucketSlot(n: nat): (i: nat)
    ensures i < |Buckets|
  {
    if n >= 900 then 9 else n / 100
  }

  /** No price lies in two bar ranges. */
  lemma BarRangesDisjoint(p: real)
    ensures forall i, j :: 0 <= i < j < |BarRanges| && InBin(p, BarRanges[i]) ==> !InBin(p, BarRanges[j])
  {
  }

  /** A non-negative whole price lies in exactly one bar range, the one `BarSlot` names. */
  lemma BarRangeOfWholePrice(p: real)
    requires 0.0 <= p && IsWhole(p)
    ensures forall j :: 0 <= j < |BarRanges| ==> (InBin(p, BarRanges[j]) <==> j == BarSlot(p.Floor))
  {
  }

  /** A price strictly between 100k and 100k+1 (1 <= k <= 9), such as 100.5,
      lies in no bar range. */
  lemma BarRangeGap(p: real, k: int)
    requires 1 <= k <= 9
    requires (100 * k) as real < p < (100 * k + 1) as real
    ensures forall j :: 0 <= j < |BarRanges| ==> !InBin(p, BarRanges[j])
  {
  }

  /** A negative price lies in no bar range. */
  lemma NegativeOutsideBarRanges(p: real)
    requires p < 0.0
    ensures forall j :: 0 <= j < |BarRanges| ==> !InBin(p, BarRanges[j])
  {
  }

  /** Off the whole prices the schemes disagree too: a price strictly between
      100k and 100k+1 lies in bucket k but in no bar range. */
  lemma GapDisagreement(p: real, k: int)
    requires 1 <= k <= 9
    requires (100 * k) as real < p < (100 * k + 1) as real
    ensures InBin(p, Buckets[k])
    ensures forall j :: 0 <= j < |BarRanges| ==> !InBin(p, BarRanges[j])
  {
  }

  /** Every non-negative price, whole or not, lies in exactly one bucket,
      the one `BucketSlot` names. */
  lemma BucketOfPrice(p: real)
    requires 0.0 <= p
    ensures forall j :: 0 <= j < |Buckets| ==> (InBin(p, Buckets[j]) <==> j == BucketSlot(p.Floor))
  {
  }

  /** A negative price lies in no bucket; `$bucket` sends it to its `default` output. */
  lemma NegativeOutsideBuckets(p: real)
    requires p < 0.0
    ensures forall j :: 0 <= j < |Buckets| ==> !InBin(p, Buckets[j])
  {
  }

  /** The two schemes place a whole price in different bins exactly at the
      shared boundaries 100, 200, ..., 900: the bar chart closes its ranges
      above, `$bucket` opens the next bucket there. */
  lemma BoundaryDisagreement(n: nat)
    ensures BarSlot(n) != BucketSlot(n) <==> n % 100 == 0 && 100 <= n <= 900
  {
  }

  /** A price of exactly 100 is in the bar range "0-100" but in the bucket starting at 100. */
  lemma PriceHundredExample()
    ensures InBin(100.0, BarRanges[0]) && !InBin(100.0, BarRanges[1])
    ensures InBin(100.0, Buckets[1]) && !InBin(100.0, Buckets[0])
  {
  }
}
