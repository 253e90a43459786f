/** questoesBI-IA-1.py, also query 1 of dashboard-12345.py: the ten clients
    with the largest total sales. */
module Question1 {
  import opened Common
  import opened Table
  import opened Series
  import opened Grouping

  /** Per-client sales totals, largest first, cut to ten: each entry is a
      client with the sum of its sales; min(10, number of clients) entries;
      a prefix of the full descending ranking; no client left out sold more
      than one kept. */
  function TopClients(rows: seq<Sale>): (s: Series<string>)
    ensures Sorted(s, Descending) && DistinctKeys(s)
    ensures GroupSums(s, rows, ClientKey, SalesOf)
    ensures |s| == Min(10, |KeySet(rows, ClientKey)|)
    ensures IsPrefix(s, Ranking(rows, ClientKey, SalesOf, Descending))
    ensures NoneOmittedAbove(s, rows, ClientKey, SalesOf, Descending)
  {
    RankSpec(rows, ClientKey, SalesOf, Descending, Some(10));
    Rank(rows, ClientKey, SalesOf, Descending, Some(10))
  }

  /** The full ranking the ten are cut from is in non-increasing order and
      holds every client once. */
  lemma FullRanking(rows: seq<Sale>)
    ensures Sorted(Ranking(rows, ClientKey, SalesOf, Descending), Descending)
    ensures KeysOf(Ranking(rows, ClientKey, SalesOf, Descending)) == set r | r in rows :: r.client
    ensures Total(Ranking(rows, ClientKey, SalesOf, Descending)) == SumAll(rows, SalesOf)
  {
    RankingSpec(rows, ClientKey, SalesOf, Descending);
    SumKeyedAllKeyed(rows, ClientKey, SalesOf);
    assert KeySet(rows, ClientKey) == set r | r in rows :: r.client;
  }
}
