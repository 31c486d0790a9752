/** Histograms: one count per key, where a record is counted under every key it
    relates to. This is what the bar chart does with its price ranges, the pie
    chart with its categories and `$bucket` with its boundaries. */
module Histograms {
  import opened Seqs

  /** One histogram entry: a key (a price range, a bucket, a category) and its count. */
  datatype Tally<K> = Tally(key: K, count: nat)

  /** The records related to the key `k`. */
  function Matching<K, T>(rel: (K, T) -> bool, k: K): T -> bool
  {
    t => rel(k, t)
  }

  /** The keys the record `t` is related to. */
  function MatchedBy<K, T>(rel: (K, T) -> bool, t: T): K -> bool
  {
    k => rel(k, t)
  }

  /** One entry per key, in key order, each counting the records related to it. */
  function Tallies<K, T>(s: seq<T>, keys: seq<K>, rel: (K, T) -> bool): (h: seq<Tally<K>>)
    ensures |h| == |keys|
    ensures forall i :: 0 <= i < |keys| ==>
              h[i].key == keys[i] && h[i].count == Count(s, Matching(rel, keys[i]))
    decreases |keys|
  {
    if |keys| == 0 then []
    else
      var k := keys[|keys| - 1];
      Tallies(s, keys[..|keys| - 1], rel) + [Tally(k, Count(s, Matching(rel, k)))]
  }

  /** The keys of a histogram, in order. */
  function Keys<K>(h: seq<Tally<K>>): (ks: seq<K>)
    ensures |ks| == |h|
  {
    seq(|h|, i requires 0 <= i < |h| => h[i].key)
  }

  /** Sum of the counts of a histogram. */
  function Total<K>(h: seq<Tally<K>>): nat
    decreases |h|
  {
    if |h| == 0 then 0 else Total(h[..|h| - 1]) + h[|h| - 1].count
  }

  /** Number of keys under which the record `t` is counted. */
  function Hits<K, T>(keys: seq<K>, rel: (K, T) -> bool, t: T): nat
  {
    Count(keys, MatchedBy(rel, t))
  }

  /** Sum of `Hits` over the records of `s`. */
  function HitSum<K, T>(s: seq<T>, keys: seq<K>, rel: (K, T) -> bool): nat
    decreases |s|
  {
    if |s| == 0 then 0 else HitSum(s[..|s| - 1], keys, rel) + Hits(keys, rel, s[|s| - 1])
  }

  /** Over no records every count is zero. */
  lemma {:induction false} TalliesEmpty<K, T>(keys: seq<K>, rel: (K, T) -> bool)
    ensures Total(Tallies([], keys, rel)) == 0
    decreases |keys|
  {
    if |keys| > 0 {
      var h := Tallies([], keys, rel);
      assert h[..|h| - 1] == Tallies([], keys[..|keys| - 1], rel);
      TalliesEmpty(keys[..|keys| - 1], rel);
    }
  }

  /** Appending a record raises the histogram's total by the number of keys it hits. */
  lemma {:induction false} TalliesSnoc<K, T>(s: seq<T>, x: T, keys: seq<K>, rel: (K, T) -> bool)
    ensures Total(Tallies(s + [x], keys, rel)) == Total(Tallies(s, keys, rel)) + Hits(keys, rel, x)
    decreases |keys|
  {
    if |keys| > 0 {
      var init := keys[..|keys| - 1];
      var k := keys[|keys| - 1];
      TalliesSnoc(s, x, init, rel);
      var hx := Tallies(s + [x], keys, rel);
      var h := Tallies(s, keys, rel);
      assert hx[..|hx| - 1] == Tallies(s + [x], init, rel);
      assert h[..|h| - 1] == Tallies(s, init, rel);
      CountSnoc(s, x, Matching(rel, k));
      assert Count(keys, MatchedBy(rel, x))
          == Count(init, MatchedBy(rel, x)) + (if rel(k, x) then 1 else 0);
    }
  }

  /** The histogram's total is the number of (record, key) pairs that are related. */
  lemma {:induction false} TotalIsHitSum<K, T>(s: seq<T>, keys: seq<K>, rel: (K, T) -> bool)
    ensures Total(Tallies(s, keys, rel)) == HitSum(s, keys, rel)
    decreases |s|
  {
    if |s| == 0 {
      TalliesEmpty(keys, rel);
      assert s == [];
    } else {
      var init, x := s[..|s| - 1], s[|s| - 1];
      assert init + [x] == s;
      TotalIsHitSum(init, keys, rel);
      TalliesSnoc(init, x, keys, rel);
      calc {
        Total(Tallies(s, keys, rel));
        Total(Tallies(init + [x], keys, rel));
        Total(Tallies(init, keys, rel)) + Hits(keys, rel, x);
        HitSum(init, keys, rel) + Hits(keys, rel, x);
        HitSum(s, keys, rel);
      }
    }
  }

  /** When every record hits exactly one key, the histogram counts every record once. */
  lemma {:induction false} HitSumExact<K, T>(s: seq<T>, keys: seq<K>, rel: (K, T) -> bool)
    requires forall i :: 0 <= i < |s| ==> Hits(keys, rel, s[i]) == 1
    ensures HitSum(s, keys, rel) == |s|
    decreases |s|
  {
    if |s| > 0 {
      HitSumExact(s[..|s| - 1], keys, rel);
    }
  }

  /** When a record hits at most one key, and none unless it satisfies `p`,
      the histogram counts no record twice and none outside `p`. */
  lemma {:induction false} HitSumBelowIndicator<K, T>(s: seq<T>, keys: seq<K>, rel: (K, T) -> bool, p: T -> bool)
    requires forall i :: 0 <= i < |s| ==> Hits(keys, rel, s[i]) <= (if p(s[i]) then 1 else 0)
    ensures HitSum(s, keys, rel) <= Count(s, p)
    decreases |s|
  {
    if |s| > 0 {
      HitSumBelowIndicator(s[..|s| - 1], keys, rel, p);
    }
  }

  /** When a record hits one key if it satisfies `p` and none otherwise, the
      histogram counts exactly the records satisfying `p`. */
  lemma {:induction false} HitSumIndicator<K, T>(s: seq<T>, keys: seq<K>, rel: (K, T) -> bool, p: T -> bool)
    requires forall i :: 0 <= i < |s| ==> Hits(keys, rel, s[i]) == (if p(s[i]) then 1 else 0)
    ensures HitSum(s, keys, rel) == Count(s, p)
    decreases |s|
  {
    if |s| > 0 {
      HitSumIndicator(s[..|s| - 1], keys, rel, p);
    }
  }
}
