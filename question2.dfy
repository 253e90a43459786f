/** questaoBI-IA-2.py, also query 2 of dashboard-12345.py: the three
    countries with the largest total sales. */
module Question2 {
  import opened Common
  import opened Table
  import opened Series
  import opened Grouping

  /** Per-country sales totals, largest first, cut to three: at most three
      entries (fewer only when there are fewer countries), a prefix of the
      full descending ranking, and no country left out sold more than one
      kept. */
  function TopCountries(rows: seq<Sale>): (s: Series<string>)
    ensures Sorted(s, Descending) && DistinctKeys(s)
    ensures GroupSums(s, rows, CountryKey, SalesOf)
    ensures |s| == Min(3, |KeySet(rows, CountryKey)|)
    ensures IsPrefix(s, Ranking(rows, CountryKey, SalesOf, Descending))
    ensures NoneOmittedAbove(s, rows, CountryKey, SalesOf, Descending)
  {
    RankSpec(rows, CountryKey, SalesOf, Descending, Some(3));
    Rank(rows, CountryKey, SalesOf, Descending, Some(3))
  }
}
