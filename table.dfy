/** The sales fact table (VendasGlobais.csv) and the three dimension
    tables (carriers, sellers, suppliers), as typed records. */
module Table {
  import opened Common

  /** The numeric columns of the fact table: Vendas, Desconto,
      Margem Bruta and Frete. */
  datatype Measure = Sales | Discount | GrossMargin | Freight

  /** One cell of a numeric column as pandas holds it after read_csv:
      a float, a string (the column had a token that is not a number, so
      pandas kept every cell as text), or NaN (an empty field). */
  datatype Cell = Num(v: real) | Text(s: string) | Null

  /** A calendar date; validity is stated in module Dates. */
  datatype Date = Date(day: int, month: int, year: int)

  /** The Data column: raw text as read, a parsed date, or NaT once a
      parse has failed. */
  datatype DateCell = Raw(text: string) | Parsed(date: Date) | NaT

  /** One sales row. The name fields are filled in by the left joins and
      are None before the join and when the key has no dimension row. */
  datatype Sale = Sale(
    client: string,           // ClienteNome
    country: string,          // ClientePaís
    countryCode: string,      // ClientePaísID, already rendered as text
    city: string,             // ClienteCidade
    category: string,         // CategoriaNome
    sellerId: int,            // VendedorID
    supplierId: int,          // FornecedorID
    carrierId: int,           // TransportadoraID
    measures: map<Measure, Cell>,
    date: DateCell,           // Data
    carrierName: Option<string>,   // TransportadoraNome
    sellerName: Option<string>,    // VendedorNome
    supplierName: Option<string>)  // FornecedorNome

  /** A row of Transportadoras.csv, Vendedores.csv or Fornecedores.csv. */
  datatype DimRow = DimRow(id: int, name: string)

  /** Which dimension a join or a merge refers to. */
  datatype Dimension = Carrier | Seller | Supplier

  /** The foreign key of a sales row into dimension d. */
  function ForeignKey(r: Sale, d: Dimension): int
  {
    match d
    case Carrier => r.carrierId
    case Seller => r.sellerId
    case Supplier => r.supplierId
  }

  /** The display name that the join with dimension d attached to r. */
  function NameOf(r: Sale, d: Dimension): Option<string>
  {
    match d
    case Carrier => r.carrierName
    case Seller => r.sellerName
    case Supplier => r.supplierName
  }

  /** r with the name column of dimension d set to n and nothing else changed. */
  function WithName(r: Sale, d: Dimension, n: Option<string>): (r': Sale)
    ensures NameOf(r', d) == n
    ensures forall e :: e != d ==> NameOf(r', e) == NameOf(r, e)
    ensures forall e :: ForeignKey(r', e) == ForeignKey(r, e)
    ensures r'.measures == r.measures && r'.date == r.date
  {
    match d
    case Carrier => r.(carrierName := n)
    case Seller => r.(sellerName := n)
    case Supplier => r.(supplierName := n)
  }

  /** The number a numeric cell contributes to a pandas sum: NaN is skipped
      (so it adds 0); a text cell only occurs in a column that was never
      coerced, which the scripts that sum without coercing assume away. */
  function CellNumber(c: Cell): real
  {
    match c
    case Num(v) => v
    case Text(_) => 0.0
    case Null => 0.0
  }

  /** The value of measure m in r; a column the table lacks reads as 0. */
  function MeasureOf(r: Sale, m: Measure): real
  {
    if m in r.measures then CellNumber(r.measures[m]) else 0.0
  }

  function SalesOf(r: Sale): real { MeasureOf(r, Sales) }
  function DiscountOf(r: Sale): real { MeasureOf(r, Discount) }
  function GrossMarginOf(r: Sale): real { MeasureOf(r, GrossMargin) }
  function FreightOf(r: Sale): real { MeasureOf(r, Freight) }

  /** The Ano column: the year of a parsed date, NaN otherwise. */
  function YearOf(r: Sale): Option<int>
  {
    match r.date
    case Parsed(d) => Some(d.year)
    case _ => None
  }

  // Grouping keys. A None key is NaN, and pandas' groupby drops that row.
  function ClientKey(r: Sale): Option<string> { Some(r.client) }
  function CountryKey(r: Sale): Option<string> { Some(r.country) }
  function CityKey(r: Sale): Option<string> { Some(r.city) }
  function CategoryKey(r: Sale): Option<string> { Some(r.category) }
  function ClientCityKey(r: Sale): Option<(string, string)> { Some((r.client, r.city)) }
  function YearKey(r: Sale): Option<int> { YearOf(r) }
  function CarrierNameKey(r: Sale): Option<string> { r.carrierName }
  function SellerNameKey(r: Sale): Option<string> { r.sellerName }
  function SupplierNameKey(r: Sale): Option<string> { r.supplierName }
  function CarrierIdKey(r: Sale): Option<int> { Some(r.carrierId) }
  function SellerIdKey(r: Sale): Option<int> { Some(r.sellerId) }
  function SupplierIdKey(r: Sale): Option<int> { Some(r.supplierId) }
}
