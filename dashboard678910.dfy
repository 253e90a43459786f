/** dashboard-678910.py: the sales table joined with the sellers and the
    suppliers, its dates parsed and its numbers normalised, then the five
    charts of questions 6 to 10. */
module Dashboard678910 {
  import opened Common
  import opened Table
  import opened Series
  import opened Grouping
  import opened Coercion
  import opened Dates
  import opened Joins
  import opened Frame
  import opened Charts
  import opened Yearly
  import opened Question6
  import opened Question7
  import opened Question9
  import Question10

  /** The numeric columns this dashboard coerces. */
  const Coerced: seq<Measure> := [Sales, Discount, GrossMargin, Freight]

  /** The table the queries read: the sellers join, the suppliers join, the
      date parse, then the four numeric columns coerced where present. */
  function Normalise(sales: seq<Sale>, header: set<Measure>, sellers: seq<DimRow>, suppliers: seq<DimRow>): seq<Sale>
  {
    CoerceRows(ParseDateColumn(LeftJoin(LeftJoin(sales, sellers, Seller), suppliers, Supplier)),
               {Sales, Discount, GrossMargin, Freight} * header)
  }

  /** With unique seller and supplier IDs the normalised table is row for
      row the sales table, in order, with both names looked up (missing for
      an unknown ID), the date parsed (a bad date becomes missing and the
      row stays) and the four columns coerced; each such cell is then a
      number. */
  lemma NormaliseSpec(sales: seq<Sale>, header: set<Measure>, sellers: seq<DimRow>, suppliers: seq<DimRow>)
    requires UniqueIds(sellers) && UniqueIds(suppliers)
    ensures |Normalise(sales, header, sellers, suppliers)| == |sales|
    ensures forall i :: 0 <= i < |sales| ==>
      Normalise(sales, header, sellers, suppliers)[i] ==
        CoerceRow(sales[i].(sellerName := Lookup(sellers, sales[i].sellerId),
                            supplierName := Lookup(suppliers, sales[i].supplierId),
                            date := ParseDateCell(sales[i].date)),
                  {Sales, Discount, GrossMargin, Freight} * header)
    ensures forall x, m ::
      (x in Normalise(sales, header, sellers, suppliers) && m in {Sales, Discount, GrossMargin, Freight} * header && m in x.measures)
      ==> x.measures[m].Num?
  {
    SellerThenSupplier(sales, sellers, suppliers);
    var targets := {Sales, Discount, GrossMargin, Freight} * header;
    var joined := LeftJoin(LeftJoin(sales, sellers, Seller), suppliers, Supplier);
    var parsed := ParseDateColumn(joined);
    forall x, m | x in Normalise(sales, header, sellers, suppliers) && m in targets && m in x.measures
      ensures x.measures[m].Num?
    {
      var i :| 0 <= i < |parsed| && Normalise(sales, header, sellers, suppliers)[i] == x;
      CoerceRowSpec(parsed[i], targets, m);
    }
  }

  /** Lines 8 to 22: read, two joins, the date parse, the column loop. */
  method Load(sales: seq<Sale>, header: set<Measure>, sellers: seq<DimRow>, suppliers: seq<DimRow>) returns (df: SalesFrame)
    requires forall r :: r in sales ==> r.measures.Keys == header
    ensures fresh(df) && df.Valid()
    ensures df.rows == Normalise(sales, header, sellers, suppliers)
  {
    df := new SalesFrame(sales, header);
    df.MergeLeft(sellers, Seller);
    df.MergeLeft(suppliers, Supplier);
    df.ParseDates();
    df.CoerceColumns(Coerced);
    assert ColumnSet(Coerced) == {Sales, Discount, GrossMargin, Freight};
  }

  /** Query 6: discounts per seller name over the USA rows, largest first,
      untruncated; rows whose seller has no name fall into no group. */
  function DiscountBySellerName(rows: seq<Sale>): (s: Series<string>)
    ensures Sorted(s, Descending) && DistinctKeys(s)
    ensures GroupSums(s, Filter(rows, IsUSA), SellerNameKey, DiscountOf)
    ensures forall n :: n in KeysOf(s) <==> exists r :: r in rows && IsUSA(r) && r.sellerName == Some(n)
    ensures Total(s) == SumKeyed(Filter(rows, IsUSA), SellerNameKey, DiscountOf)
  {
    var kept := Filter(rows, IsUSA);
    RankSpec(kept, SellerNameKey, DiscountOf, Descending, None);
    KeySetFilter(rows, IsUSA, SellerNameKey);
    Rank(kept, SellerNameKey, DiscountOf, Descending, None)
  }

  /** Query 7: margin per supplier name over the Womens wear rows, largest
      first, cut to ten, with no supplier left out above one kept. */
  function TopSupplierMargins(rows: seq<Sale>): (s: Series<string>)
    ensures Sorted(s, Descending) && DistinctKeys(s)
    ensures GroupSums(s, Filter(rows, IsWomensWear), SupplierNameKey, GrossMarginOf)
    ensures |s| == Min(10, |KeySet(Filter(rows, IsWomensWear), SupplierNameKey)|)
    ensures NoneOmittedAbove(s, Filter(rows, IsWomensWear), SupplierNameKey, GrossMarginOf, Descending)
  {
    var kept := Filter(rows, IsWomensWear);
    RankSpec(kept, SupplierNameKey, GrossMarginOf, Descending, Some(10));
    Rank(kept, SupplierNameKey, GrossMarginOf, Descending, Some(10))
  }

  /** Query 9, with the script's own branch: when no row passes the mask
      the result is an empty series, otherwise the (client, city) totals,
      largest first, cut to ten. The branch agrees with the plain pipeline,
      which is empty on no rows as well. */
  function TopFootwearPairs(rows: seq<Sale>): (s: Series<(string, string)>)
    ensures s == Rank(Filter(rows, Footwear2012), ClientCityKey, SalesOf, Descending, Some(10))
    ensures Sorted(s, Descending) && DistinctKeys(s) && |s| <= 10
    ensures GroupSums(s, Filter(rows, Footwear2012), ClientCityKey, SalesOf)
    ensures NoneOmittedAbove(s, Filter(rows, Footwear2012), ClientCityKey, SalesOf, Descending)
    ensures s == [] <==> forall r :: r in rows ==> !Footwear2012(r)
  {
    var kept := Filter(rows, Footwear2012);
    RankSpec(kept, ClientCityKey, SalesOf, Descending, Some(10));
    PairsEmpty(rows);
    if kept != [] then Rank(kept, ClientCityKey, SalesOf, Descending, Some(10)) else []
  }

  /** There is a (client, city) group exactly when some row passes the mask. */
  lemma PairsEmpty(rows: seq<Sale>)
    ensures |KeySet(Filter(rows, Footwear2012), ClientCityKey)| == 0 <==> Filter(rows, Footwear2012) == []
    ensures Filter(rows, Footwear2012) == [] <==> forall r :: r in rows ==> !Footwear2012(r)
  {
    var kept := Filter(rows, Footwear2012);
    if kept != [] {
      assert kept[0] in kept && ClientCityKey(kept[0]) == Some((kept[0].client, kept[0].city));
      assert (kept[0].client, kept[0].city) in KeySet(kept, ClientCityKey);
    }
  }

  /** The dashboard's list of European countries. */
  const EuropeanCountries: seq<string> := [
    "France", "Germany", "Italy", "Spain", "Portugal", "Netherlands", "Belgium", "Sweden",
    "Norway", "Denmark", "Finland", "Austria", "Switzerland", "Ireland", "UK", "United Kingdom"]

  /** The list has sixteen names, both spellings of the United Kingdom and
      the Netherlands, but not Poland, which questaoBI-IA-10.py lists. */
  lemma ListMembership()
    ensures |EuropeanCountries| == 16
    ensures "UK" in EuropeanCountries && "United Kingdom" in EuropeanCountries && "Netherlands" in EuropeanCountries
    ensures "Poland" !in EuropeanCountries
  {
  }

  /** Query 10: per-country sales over this dashboard's list. */
  function EuropeSales(rows: seq<Sale>): Series<string>
  {
    Question10.CountrySales(rows, EuropeanCountries)
  }

  /** The five figures of the page. */
  datatype Figures = Figures(
    sellerDiscounts: Chart<string>,
    supplierMargins: Chart<string>,
    yearlySales: Chart<int>,
    footwearClients: Chart<(string, string)>,
    europeSales: Chart<string>)

  /** Lines 51 to 83: each query drawn by the helper with its kind and
      title. */
  function Draw(rows: seq<Sale>): Figures
  {
    Figures(
      PlotPartners(Some(DiscountBySellerName(rows)), "bar", "Vendedores que mais dão descontos nos EUA", false),
      PlotPartners(Some(TopSupplierMargins(rows)), "barh", "Fornecedores com maior margem de lucro - Womens wear", true),
      PlotPartners(Some(YearlyTotals(rows)), "line", "Vendas Anuais (2009-2012)", false),
      PlotPartners(Some(TopFootwearPairs(rows)), "bar", "Principais Clientes - Men´s Footwear em 2012", false),
      PlotPartners(Some(EuropeSales(rows)), "bar", "Vendas por País na Europa", false))
  }

  /** The yearly chart is a line with point markers over the ascending
      years, and is the placeholder exactly when no row is dated 2009 to
      2012. */
  lemma YearlyChart(rows: seq<Sale>)
    ensures Draw(rows).yearlySales.Placeholder? <==> forall r :: r in rows ==> !InYearRange(r)
    ensures Draw(rows).yearlySales.Plot? ==>
      Draw(rows).yearlySales.kind == "line" && Draw(rows).yearlySales.markers &&
      YearsAscending(Draw(rows).yearlySales.data)
  {
    assert Draw(rows).yearlySales == PlotPartners(Some(YearlyTotals(rows)), "line", "Vendas Anuais (2009-2012)", false);
    YearlyEmpty(rows);
    YearlyAscending(rows);
  }

  /** The Men´s Footwear chart is the "Sem dados disponíveis" placeholder
      exactly when no row passes its mask, and the supplier chart is drawn
      with horizontal bars. */
  lemma DrawSpec(rows: seq<Sale>)
    ensures Draw(rows).footwearClients.Placeholder? <==> forall r :: r in rows ==> !Footwear2012(r)
    ensures Draw(rows).footwearClients.Placeholder? ==> Draw(rows).footwearClients.message == "Sem dados disponíveis"
    ensures Draw(rows).supplierMargins.Plot? ==> Draw(rows).supplierMargins.kind == "barh"
    ensures Draw(rows).sellerDiscounts.Plot? ==> Draw(rows).sellerDiscounts.kind == "bar"
  {
  }

  /** The whole page: load, then draw. */
  method Build(sales: seq<Sale>, header: set<Measure>, sellers: seq<DimRow>, suppliers: seq<DimRow>) returns (figures: Figures)
    requires forall r :: r in sales ==> r.measures.Keys == header
    ensures figures == Draw(Normalise(sales, header, sellers, suppliers))
  {
    var df := Load(sales, header, sellers, suppliers);
    figures := Draw(df.rows);
  }
}
