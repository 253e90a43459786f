/** dashboard-12345.py: the sales table joined with the carriers and
    normalised, then the five charts of questions 1 to 5. */
module Dashboard12345 {
  import opened Common
  import opened Table
  import opened Series
  import opened Grouping
  import opened Coercion
  import opened Joins
  import opened Frame
  import opened Charts
  import opened Question1
  import opened Question2
  import opened Question5

  /** The numeric columns this dashboard coerces. */
  const Coerced: seq<Measure> := [Sales, Freight]

  /** The table the queries read: the left join with the carriers, then
      Vendas and Frete coerced where the table has them. */
  function Normalise(sales: seq<Sale>, header: set<Measure>, carriers: seq<DimRow>): seq<Sale>
  {
    CoerceRows(LeftJoin(sales, carriers, Carrier), {Sales, Freight} * header)
  }

  /** The normalised table keeps every sales row; with unique carrier IDs it
      is row for row the sales table with the carrier's name (missing when
      the ID has no carrier) and Vendas and Frete coerced. Afterwards every
      Vendas and Frete cell is a number, and the columns are the header's. */
  lemma NormaliseSpec(sales: seq<Sale>, header: set<Measure>, carriers: seq<DimRow>)
    requires forall r :: r in sales ==> r.measures.Keys == header
    ensures |Normalise(sales, header, carriers)| >= |sales|
    ensures UniqueIds(carriers) ==> |Normalise(sales, header, carriers)| == |sales|
    ensures UniqueIds(carriers) ==> forall i :: 0 <= i < |sales| ==>
      Normalise(sales, header, carriers)[i] ==
        CoerceRow(sales[i].(carrierName := Lookup(carriers, sales[i].carrierId)), {Sales, Freight} * header)
    ensures forall x :: x in Normalise(sales, header, carriers) ==> x.measures.Keys == header
    ensures forall x, m :: x in Normalise(sales, header, carriers) && m in {Sales, Freight} && m in x.measures ==>
      x.measures[m].Num?
  {
    var joined := LeftJoin(sales, carriers, Carrier);
    var out := Normalise(sales, header, carriers);
    LeftJoinKeepsRows(sales, carriers, Carrier);
    LeftJoinOrigins(sales, carriers, Carrier);
    if UniqueIds(carriers) {
      LeftJoinUnique(sales, carriers, Carrier);
    }
    forall x | x in out ensures x.measures.Keys == header {
      var i :| 0 <= i < |out| && out[i] == x;
      assert joined[i] in joined;
    }
    forall x, m | x in out && m in {Sales, Freight} && m in x.measures ensures x.measures[m].Num? {
      var i :| 0 <= i < |out| && out[i] == x;
      assert joined[i] in joined;
      CoerceRowSpec(joined[i], {Sales, Freight} * header, m);
    }
  }

  /** Lines 8 to 20: the frame read, replaced by its join, then the column
      loop. */
  method Load(sales: seq<Sale>, header: set<Measure>, carriers: seq<DimRow>) returns (df: SalesFrame)
    requires forall r :: r in sales ==> r.measures.Keys == header
    ensures fresh(df) && df.Valid()
    ensures df.rows == Normalise(sales, header, carriers)
  {
    df := new SalesFrame(sales, header);
    df.MergeLeft(carriers, Carrier);
    df.CoerceColumns(Coerced);
    assert ColumnSet(Coerced) == {Sales, Freight};
  }

  /** Query 3's mask. */
  predicate IsBrazil(r: Sale)
  {
    r.country == "Brazil"
  }

  /** Query 3: per-category sales of the Brazilian rows, smallest first,
      untruncated. */
  function BrazilCategories(rows: seq<Sale>): (s: Series<string>)
    ensures Sorted(s, Ascending) && DistinctKeys(s)
    ensures GroupSums(s, Filter(rows, IsBrazil), CategoryKey, SalesOf)
    ensures forall c :: c in KeysOf(s) <==> exists r :: r in rows && IsBrazil(r) && r.category == c
  {
    var kept := Filter(rows, IsBrazil);
    RankSpec(kept, CategoryKey, SalesOf, Ascending, None);
    KeySetFilter(rows, IsBrazil, CategoryKey);
    Rank(kept, CategoryKey, SalesOf, Ascending, None)
  }

  /** Query 4: freight per carrier name, largest first, untruncated; a row
      whose carrier name is missing falls into no group, so the totals add
      up to the freight of the named rows only. */
  function FreightByCarrierName(rows: seq<Sale>): (s: Series<string>)
    ensures Sorted(s, Descending) && DistinctKeys(s)
    ensures GroupSums(s, rows, CarrierNameKey, FreightOf)
    ensures forall n :: n in KeysOf(s) <==> exists r :: r in rows && r.carrierName == Some(n)
    ensures Total(s) == SumKeyed(rows, CarrierNameKey, FreightOf)
  {
    RankSpec(rows, CarrierNameKey, FreightOf, Descending, None);
    Rank(rows, CarrierNameKey, FreightOf, Descending, None)
  }

  /** The five figures of the page. */
  datatype Figures = Figures(
    topClients: Chart<string>,
    topCountries: Chart<string>,
    brazilCategories: Chart<string>,
    freightByCarrier: Chart<string>,
    footwearClients: Chart<string>)

  /** Lines 46 to 71: each query drawn by the helper with its kind and
      title. */
  function Draw(rows: seq<Sale>): Figures
  {
    Figures(
      PlotSales(Some(TopClients(rows)), "bar", "Top 10 Clientes por Vendas ($)", false),
      PlotSales(Some(TopCountries(rows)), "bar", "Top 3 Países por Vendas ($)", false),
      PlotSales(Some(BrazilCategories(rows)), "barh", "Faturamento por Categoria no Brasil", true),
      PlotSales(Some(FreightByCarrierName(rows)), "bar", "Despesa com Frete por Transportadora", false),
      PlotSales(Some(TopFootwearClients(rows)), "bar", "Principais Clientes - Men´s Footwear na Alemanha (Germany)", false))
  }

  /** Questions 1 and 2 have no entry only for an empty table. */
  lemma OverallEmpty(rows: seq<Sale>)
    ensures TopClients(rows) == [] <==> rows == []
    ensures TopCountries(rows) == [] <==> rows == []
  {
    if rows != [] {
      assert rows[0] in rows && ClientKey(rows[0]) == Some(rows[0].client);
      assert rows[0].client in KeySet(rows, ClientKey);
      assert CountryKey(rows[0]) == Some(rows[0].country);
      assert rows[0].country in KeySet(rows, CountryKey);
    }
  }

  /** Query 3 is empty exactly when no row is Brazilian. */
  lemma BrazilEmpty(rows: seq<Sale>)
    ensures BrazilCategories(rows) == [] <==> forall r :: r in rows ==> !IsBrazil(r)
  {
    if exists r :: r in rows && IsBrazil(r) {
      var r :| r in rows && IsBrazil(r);
      assert r.category in KeysOf(BrazilCategories(rows));
    }
  }

  /** Query 4 is empty exactly when no row has a carrier name. */
  lemma FreightEmpty(rows: seq<Sale>)
    ensures FreightByCarrierName(rows) == [] <==> forall r :: r in rows ==> r.carrierName.None?
  {
    if exists r :: r in rows && r.carrierName.Some? {
      var r :| r in rows && r.carrierName.Some?;
      assert r.carrierName.value in KeysOf(FreightByCarrierName(rows));
    }
  }

  /** Each figure is the "Sem dados" placeholder exactly when its query has
      no row to show; the Brazil chart is the only horizontal one. */
  lemma DrawSpec(rows: seq<Sale>)
    ensures Draw(rows).topClients.Placeholder? <==> rows == []
    ensures Draw(rows).topCountries.Placeholder? <==> rows == []
    ensures Draw(rows).brazilCategories.Placeholder? <==> forall r :: r in rows ==> !IsBrazil(r)
    ensures Draw(rows).freightByCarrier.Placeholder? <==> forall r :: r in rows ==> r.carrierName.None?
    ensures Draw(rows).footwearClients.Placeholder? <==> forall r :: r in rows ==> !FootwearInGermany(r)
    ensures Draw(rows).brazilCategories.Plot? ==> Draw(rows).brazilCategories.kind == "barh"
    ensures Draw(rows).topClients.Plot? ==> Draw(rows).topClients.kind == "bar"
  {
    OverallEmpty(rows);
    BrazilEmpty(rows);
    FreightEmpty(rows);
  }

  /** The whole page: load, then draw. */
  method Build(sales: seq<Sale>, header: set<Measure>, carriers: seq<DimRow>) returns (figures: Figures)
    requires forall r :: r in sales ==> r.measures.Keys == header
    ensures figures == Draw(Normalise(sales, header, carriers))
  {
    var df := Load(sales, header, carriers);
    figures := Draw(df.rows);
  }
}
