/** questoesBI-IA-4.py: freight per carrier ID, named through an inner merge
    with the carrier table, largest first. */
module Question4 {
  import opened Common
  import opened Table
  import opened Series
  import opened Grouping
  import opened Joins

  /** Every sales row takes part (there is no mask); an entry
      ((id, name), v) is there exactly when id is some row's carrier, v the
      freight over that carrier's rows and (id, name) a carrier row. With
      unique carrier IDs there is at most one entry per distinct carrier of
      the sales. */
  function FreightByCarrier(rows: seq<Sale>, carriers: seq<DimRow>): (s: Series<(int, string)>)
    ensures Sorted(s, Descending)
    ensures forall e :: e in s <==>
      (exists r :: r in rows && r.carrierId == e.key.0) &&
      DimRow(e.key.0, e.key.1) in carriers && e.value == SumFor(rows, CarrierIdKey, FreightOf, e.key.0)
    ensures UniqueIds(carriers) ==> DistinctKeys(s) && |s| <= |set r | r in rows :: r.carrierId|
  {
    MergedRankingSpec(rows, CarrierIdKey, FreightOf, carriers);
    assert KeySet(rows, CarrierIdKey) == set r | r in rows :: r.carrierId;
    MergedRanking(rows, CarrierIdKey, FreightOf, carriers)
  }
}
