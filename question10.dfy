/** questaoBI-IA-10.py: sales per European country, largest first. */
module Question10 {
  import opened Common
  import opened Table
  import opened Series
  import opened Grouping

  /** The script's list of European countries. */
  const EuropeanCountries: seq<string> := [
    "Germany", "France", "UK", "Ireland", "Denmark", "Sweden", "Austria",
    "Spain", "Portugal", "Belgium", "Switzerland", "Italy", "Finland",
    "Poland", "Norway"]

  /** ClientePaís.isin(countries), as a row mask. */
  function InList(countries: seq<string>): Sale -> bool
  {
    (r: Sale) => r.country in countries
  }

  /** The list has fifteen names, among them Poland, but neither
      "United Kingdom" nor the Netherlands. */
  lemma ListMembership()
    ensures |EuropeanCountries| == 15
    ensures "Poland" in EuropeanCountries && "UK" in EuropeanCountries
    ensures "United Kingdom" !in EuropeanCountries && "Netherlands" !in EuropeanCountries
  {
  }

  /** Per-country sales over the rows whose country is listed, largest
      first and untruncated: every key is a listed country some row has,
      each with its sum, and the totals add up to the sales of the kept
      rows. Both this script and dashboard-678910.py use it, each with its
      own list. */
  function CountrySales(rows: seq<Sale>, countries: seq<string>): (s: Series<string>)
    ensures Sorted(s, Descending) && DistinctKeys(s)
    ensures GroupSums(s, Filter(rows, InList(countries)), CountryKey, SalesOf)
    ensures forall c :: c in KeysOf(s) <==> c in countries && exists r :: r in rows && r.country == c
    ensures Total(s) == SumAll(Filter(rows, InList(countries)), SalesOf)
  {
    var kept := Filter(rows, InList(countries));
    RankSpec(kept, CountryKey, SalesOf, Descending, None);
    KeySetFilter(rows, InList(countries), CountryKey);
    SumKeyedAllKeyed(kept, CountryKey, SalesOf);
    Rank(kept, CountryKey, SalesOf, Descending, None)
  }

  /** The script's query over its own list. */
  function EuropeSales(rows: seq<Sale>): Series<string>
  {
    CountrySales(rows, EuropeanCountries)
  }
}
