/** questaoBI-IA-9.py: clients and cities of the Men´s Footwear category in
    2012, each with its total sales, largest first. */
module Question9 {
  import opened Common
  import opened Table
  import opened Series
  import opened Grouping
  import opened Dates
  import opened Frame

  /** The mask of the script and of query 9 of dashboard-678910.py: the
      category and the year 2012; a row without a date never matches. */
  predicate Footwear2012(r: Sale)
  {
    r.category == "Men´s Footwear" && YearOf(r) == Some(2012)
  }

  /** Per-client sales over the masked rows, largest first, untruncated. */
  function ClientTotals(rows: seq<Sale>): (s: Series<string>)
    ensures Sorted(s, Descending) && DistinctKeys(s)
    ensures GroupSums(s, Filter(rows, Footwear2012), ClientKey, SalesOf)
    ensures forall c :: c in KeysOf(s) <==> exists r :: r in rows && Footwear2012(r) && r.client == c
    ensures Total(s) == SumAll(Filter(rows, Footwear2012), SalesOf)
  {
    var kept := Filter(rows, Footwear2012);
    RankSpec(kept, ClientKey, SalesOf, Descending, None);
    KeySetFilter(rows, Footwear2012, ClientKey);
    SumKeyedAllKeyed(kept, ClientKey, SalesOf);
    Rank(kept, ClientKey, SalesOf, Descending, None)
  }

  /** Per-city sales over the same rows, largest first, untruncated. */
  function CityTotals(rows: seq<Sale>): (s: Series<string>)
    ensures Sorted(s, Descending) && DistinctKeys(s)
    ensures GroupSums(s, Filter(rows, Footwear2012), CityKey, SalesOf)
    ensures forall c :: c in KeysOf(s) <==> exists r :: r in rows && Footwear2012(r) && r.city == c
    ensures Total(s) == SumAll(Filter(rows, Footwear2012), SalesOf)
  {
    var kept := Filter(rows, Footwear2012);
    RankSpec(kept, CityKey, SalesOf, Descending, None);
    KeySetFilter(rows, Footwear2012, CityKey);
    SumKeyedAllKeyed(kept, CityKey, SalesOf);
    Rank(kept, CityKey, SalesOf, Descending, None)
  }

  /** The script: the Data column is parsed in place (the year is derived
      from it), then both rankings are taken over the same masked rows, so
      their totals agree. */
  method Run(sales: seq<Sale>, header: set<Measure>) returns (clients: Series<string>, cities: Series<string>)
    requires forall r :: r in sales ==> r.measures.Keys == header
    ensures clients == ClientTotals(ParseDateColumn(sales))
    ensures cities == CityTotals(ParseDateColumn(sales))
    ensures Total(clients) == Total(cities)
  {
    var df := new SalesFrame(sales, header);
    df.ParseDates();
    clients := ClientTotals(df.rows);
    cities := CityTotals(df.rows);
  }
}
