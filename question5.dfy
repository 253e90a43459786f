/** questaoBI-IA-5.py, also query 5 of dashboard-12345.py: the ten largest
    clients of the Men´s Footwear category in Germany. */
module Question5 {
  import opened Common
  import opened Table
  import opened Series
  import opened Grouping

  /** The mask: both the category and the country must match. */
  predicate FootwearInGermany(r: Sale)
  {
    r.category == "Men´s Footwear" && r.country == "Germany"
  }

  /** Per-client sales over the rows of the mask, largest first, cut to
      ten; empty exactly when no row matches. */
  function TopFootwearClients(rows: seq<Sale>): (s: Series<string>)
    ensures Sorted(s, Descending) && DistinctKeys(s)
    ensures GroupSums(s, Filter(rows, FootwearInGermany), ClientKey, SalesOf)
    ensures forall e :: e in s ==> exists r :: r in rows && FootwearInGermany(r) && r.client == e.key
    ensures |s| == Min(10, |KeySet(Filter(rows, FootwearInGermany), ClientKey)|)
    ensures NoneOmittedAbove(s, Filter(rows, FootwearInGermany), ClientKey, SalesOf, Descending)
    ensures s == [] <==> forall r :: r in rows ==> !FootwearInGermany(r)
  {
    var kept := Filter(rows, FootwearInGermany);
    RankSpec(kept, ClientKey, SalesOf, Descending, Some(10));
    KeySetFilter(rows, FootwearInGermany, ClientKey);
    NoMatchNoGroups(rows);
    Rank(kept, ClientKey, SalesOf, Descending, Some(10))
  }

  /** There are client groups exactly when some row passes the mask. */
  lemma NoMatchNoGroups(rows: seq<Sale>)
    ensures |KeySet(Filter(rows, FootwearInGermany), ClientKey)| == 0 <==> forall r :: r in rows ==> !FootwearInGermany(r)
  {
    if exists r :: r in rows && FootwearInGermany(r) {
      var r :| r in rows && FootwearInGermany(r);
      assert r in Filter(rows, FootwearInGermany);
      assert r.client in KeySet(Filter(rows, FootwearInGermany), ClientKey);
    }
  }
}
