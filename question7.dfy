/** questoesBI-IA-7.py: gross margin per supplier ID in the Womens wear
    category, named through an inner merge with the supplier table, largest
    first. */
module Question7 {
  import opened Common
  import opened Table
  import opened Series
  import opened Grouping
  import opened Joins

  /** The mask of the script and of query 7 of dashboard-678910.py. */
  predicate IsWomensWear(r: Sale)
  {
    r.category == "Womens wear"
  }

  /** An entry ((id, name), v) is there exactly when some Womens wear row
      has supplier id, v is the margin over those rows of that supplier and
      (id, name) is a supplier row; untruncated, and with unique supplier
      IDs one entry per supplier. */
  function MarginBySupplier(rows: seq<Sale>, suppliers: seq<DimRow>): (s: Series<(int, string)>)
    ensures Sorted(s, Descending)
    ensures forall e :: e in s <==>
      (exists r :: r in rows && IsWomensWear(r) && r.supplierId == e.key.0) &&
      DimRow(e.key.0, e.key.1) in suppliers && e.value == SumFor(Filter(rows, IsWomensWear), SupplierIdKey, GrossMarginOf, e.key.0)
    ensures UniqueIds(suppliers) ==> DistinctKeys(s)
  {
    var kept := Filter(rows, IsWomensWear);
    MergedRankingSpec(kept, SupplierIdKey, GrossMarginOf, suppliers);
    KeySetFilter(rows, IsWomensWear, SupplierIdKey);
    MergedRanking(kept, SupplierIdKey, GrossMarginOf, suppliers)
  }
}
