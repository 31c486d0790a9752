/** The `/transactions` route: the month filter, an optional search that
    matches title, description or price, then `skip`/`limit` pagination. */
module Listing {
  import opened Wrappers
  import opened Seqs
  import opened Transactions
  import opened Queries
  import opened Text

  /** The `search` query parameter: its text, and the same text read by
      `parseFloat` (`None` for NaN). */
  datatype SearchParam = SearchParam(text: string, number: Option<real>)

  /** `if (search)`: a missing or empty search string adds no condition. */
  predicate SearchActive(search: Option<SearchParam>)
  {
    search.Some? && search.value.text != ""
  }

  /** The `$or` of the three search conditions. */
  predicate SearchMatches(q: SearchParam, t: Transaction)
    ensures q.text == "" ==> SearchMatches(q, t)
    ensures q.number.None? && SearchMatches(q, t) ==> |q.text| <= |t.title| || |q.text| <= |t.description|
  {
    || ContainsIgnoreCase(t.title, q.text)
    || ContainsIgnoreCase(t.description, q.text)
    || (q.number.Some? && t.price == q.number.value)
  }

  /** The whole `find` filter: the month, and the search when there is one. */
  predicate ListMatches(month: Option<int>, search: Option<SearchParam>, t: Transaction)
  {
    MatchesMonth(month, t) && (SearchActive(search) ==> SearchMatches(search.value, t))
  }

  function ListFilter(month: Option<int>, search: Option<SearchParam>): Transaction -> bool
  {
    t => ListMatches(month, search, t)
  }

  function Abs(n: int): nat
  {
    if n < 0 then -n else n
  }

  function Min(a: int, b: int): int
  {
    if a <= b then a else b
  }

  /** `skip(skip).limit(limit)` on a cursor over `items`. A limit of 0 means no
      limit; a negative limit returns as many items as its absolute value. */
  function Window<T>(items: seq<T>, skip: nat, limit: int): (r: seq<T>)
    ensures forall i :: 0 <= i < |r| ==> skip + i < |items| && r[i] == items[skip + i]
    ensures |r| == if |items| <= skip then 0
                   else if limit == 0 then |items| - skip
                   else Min(Abs(limit), |items| - skip)
  {
    if |items| <= skip then []
    else
      var rest := items[skip..];
      if limit == 0 || |rest| <= Abs(limit) then rest else rest[..Abs(limit)]
  }

  /** `(page - 1) * perPage`, with the defaults `page = 1`, `perPage = 10`.
      It is negative, so the database rejects it, exactly when the page is
      before the first and the page size positive, or the page is after the
      first and the page size negative. */
  function SkipOf(page: Option<int>, perPage: Option<int>): (skip: int)
    ensures page.None? || page == Some(1) || perPage == Some(0) ==> skip == 0
    ensures skip < 0 <==> (page.GetOr(1) < 1 && perPage.GetOr(10) > 0) || (page.GetOr(1) > 1 && perPage.GetOr(10) < 0)
  {
    ProductSign(page.GetOr(1) - 1, perPage.GetOr(10));
    (page.GetOr(1) - 1) * perPage.GetOr(10)
  }

  lemma ProductSign(a: int, b: int)
    ensures a * b < 0 <==> (a < 0 && b > 0) || (a > 0 && b < 0)
  {
  }

  /** The listing. `None` is the query the database rejects because its skip
      is negative. */
  function ListTransactions(store: seq<Transaction>, month: Option<int>, search: Option<SearchParam>,
                            page: Option<int>, perPage: Option<int>): (r: Option<seq<Transaction>>)
    ensures r.None? <==> SkipOf(page, perPage) < 0
    ensures r.Some? ==> forall t :: t in r.value ==> t in store && month.Some? && t.month == month
    ensures r.Some? && SearchActive(search) ==>
              forall t :: t in r.value ==> SearchMatches(search.value, t)
    ensures r.Some? && perPage.GetOr(10) != 0 ==> |r.value| <= Abs(perPage.GetOr(10))
  {
    var skip := SkipOf(page, perPage);
    if skip < 0 then None
    else
      var matching := Filter(store, ListFilter(month, search));
      var w := Window(matching, skip, perPage.GetOr(10));
      assert forall t :: t in w ==> t in matching;
      Some(w)
  }

  /** Without a (non-empty) search, the month is the only condition: the
      listing is a page of the month's records. */
  lemma ListWithoutSearch(store: seq<Transaction>, month: Option<int>, search: Option<SearchParam>,
                          page: Option<int>, perPage: Option<int>)
    requires !SearchActive(search)
    requires 0 <= SkipOf(page, perPage)
    ensures ListTransactions(store, month, search, page, perPage)
         == Some(Window(MonthRecords(store, month), SkipOf(page, perPage), perPage.GetOr(10)))
  {
    FilterCongruent(store, ListFilter(month, search), InMonth(month));
  }

  /** With the default page and page size, the listing is the first ten
      matching records (all of them when there are fewer). */
  lemma ListDefaults(store: seq<Transaction>, month: Option<int>, search: Option<SearchParam>)
    ensures var matching := Filter(store, ListFilter(month, search));
            ListTransactions(store, month, search, None, None) == Some(matching[..Min(10, |matching|)])
  {
    var matching := Filter(store, ListFilter(month, search));
    assert SkipOf(None, None) == 0;
    var w := Window(matching, 0, 10);
    assert |w| == Min(10, |matching|);
    assert w == matching[..Min(10, |matching|)];
  }

  /** Item `m` of the page that skips `skip` items is item `skip + m` of the whole list. */
  lemma WindowItem<T>(items: seq<T>, skip: nat, n: int, m: int)
    requires 0 <= m < n && skip + m < |items|
    ensures m < |Window(items, skip, n)| && Window(items, skip, n)[m] == items[skip + m]
  {
  }

  /** Pages of a positive size tile the matching records: page `j / n + 1`
      holds an item at position `j % n` exactly when there is a j-th match,
      and that item is the j-th match, so no record is skipped or repeated. */
  lemma PageOfMatch(store: seq<Transaction>, month: Option<int>, search: Option<SearchParam>, n: int, j: int)
    requires 0 < n && 0 <= j
    ensures var r := ListTransactions(store, month, search, Some(j / n + 1), Some(n));
            var matching := Filter(store, ListFilter(month, search));
            r.Some? && (j % n < |r.value| <==> j < |matching|) &&
            (j < |matching| ==> r.value[j % n] == matching[j])
  {
    var matching := Filter(store, ListFilter(month, search));
    DivMod(j, n);
    var q, m := j / n, j % n;
    var skip: nat := q * n;
    assert SkipOf(Some(q + 1), Some(n)) == skip;
    if j < |matching| {
      WindowItem(matching, skip, n, m);
    }
  }

  lemma DivMod(j: int, n: int)
    requires 0 <= j && 0 < n
    ensures 0 <= j % n < n && 0 <= (j / n) * n
    ensures j == (j / n) * n + j % n
  {
  }

  /** A month parameter that is not a number lists nothing. */
  lemma ListNonNumericMonth(store: seq<Transaction>, search: Option<SearchParam>, page: Option<int>, perPage: Option<int>)
    requires 0 <= SkipOf(page, perPage)
    ensures ListTransactions(store, None, search, page, perPage) == Some([])
  {
  }
}
