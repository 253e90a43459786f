/** questaoBI-IA-6.py: discounts per seller ID over the USA rows, named
    through an inner merge with the seller table, largest first. */
module Question6 {
  import opened Common
  import opened Table
  import opened Series
  import opened Grouping
  import opened Joins

  /** The mask of the script and of query 6 of dashboard-678910.py. */
  predicate IsUSA(r: Sale)
  {
    r.country == "USA"
  }

  /** An entry ((id, name), v) is there exactly when some USA row has
      seller id, v is the discount over the USA rows of that seller and
      (id, name) is a seller row; sellers missing from the table drop out. */
  function DiscountBySeller(rows: seq<Sale>, sellers: seq<DimRow>): (s: Series<(int, string)>)
    ensures Sorted(s, Descending)
    ensures forall e :: e in s <==>
      (exists r :: r in rows && IsUSA(r) && r.sellerId == e.key.0) &&
      DimRow(e.key.0, e.key.1) in sellers && e.value == SumFor(Filter(rows, IsUSA), SellerIdKey, DiscountOf, e.key.0)
    ensures UniqueIds(sellers) ==> DistinctKeys(s)
  {
    var kept := Filter(rows, IsUSA);
    MergedRankingSpec(kept, SellerIdKey, DiscountOf, sellers);
    KeySetFilter(rows, IsUSA, SellerIdKey);
    MergedRanking(kept, SellerIdKey, DiscountOf, sellers)
  }
}
