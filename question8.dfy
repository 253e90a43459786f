/** questaoBI-IA-8.py: total sales in 2009, yearly totals from 2009 to 2012
    and the trend they show. */
module Question8 {
  import opened Common
  import opened Table
  import opened Series
  import opened Grouping
  import opened Dates
  import opened Frame
  import opened Yearly
  import opened Trend

  /** What the script reports: the 2009 total, the yearly series and the
      trend word's meaning. */
  datatype Report = Report(total2009: real, yearly: Series<int>, trend: Trend)

  /** The analysis of the cleaned table. The lookup of 2009 comes first and
      raises a KeyError when no row is dated 2009, so nothing after it is
      reported; otherwise the report holds 2009's sales, the ascending
      yearly series and the classification of its values. */
  function Analyse(rows: seq<Sale>): (r: Result<Report, KeyError>)
    ensures r.Err? <==> forall x :: x in rows ==> YearOf(x) != Some(2009)
    ensures r.Err? ==> r.error == KeyError(2009)
    ensures r.Ok? ==> r.value.total2009 == SumFor(rows, YearKey, SalesOf, 2009)
    ensures r.Ok? ==> YearsAscending(r.value.yearly) && r.value.yearly == YearlyTotals(rows)
    ensures r.Ok? ==> r.value.trend == Classify(Values(r.value.yearly))
  {
    Total2009(rows);
    YearlyTotalsSpec(rows);
    var yearly := YearlyTotals(rows);
    match Loc(yearly, 2009)
    case Err(e) => Err(e)
    case Ok(v) => Ok(Report(v, yearly, Classify(Values(yearly))))
  }

  /** When some row is dated 2009 there is a report, and its series starts
      with 2009 and that year's total, so it is never empty. */
  lemma ReportStartsIn2009(rows: seq<Sale>)
    requires exists x :: x in rows && YearOf(x) == Some(2009)
    ensures Analyse(rows).Ok? && Analyse(rows).value.yearly != []
    ensures Analyse(rows).value.yearly[0] == Entry(2009, Analyse(rows).value.total2009)
  {
    var s := YearlyTotals(rows);
    YearlyTotalsSpec(rows);
    Total2009(rows);
    var v := Loc(s, 2009).value;
    assert Entry(2009, v) in s;
    assert s[0] in s;
  }

  /** The cleaned table keeps exactly the rows whose date parsed. */
  lemma CleanedRows(sales: seq<Sale>)
    ensures forall x :: x in Filter(ParseDateColumn(sales), HasDate) <==>
      x in ParseDateColumn(sales) && x.date.Parsed?
  {
    var parsed := ParseDateColumn(sales);
    forall x | x in parsed ensures !x.date.Raw? {
      var i :| 0 <= i < |parsed| && parsed[i] == x;
      ParseDateColumnSpec(sales, i);
    }
  }

  /** The script: parse the dates in place, drop the rows whose date is
      missing, then analyse. Dropping those rows does not change the yearly
      series. */
  method Run(sales: seq<Sale>, header: set<Measure>) returns (r: Result<Report, KeyError>)
    requires forall x :: x in sales ==> x.measures.Keys == header
    ensures r == Analyse(Filter(ParseDateColumn(sales), HasDate))
    ensures r.Ok? ==> r.value.yearly == YearlyTotals(ParseDateColumn(sales))
  {
    var df := new SalesFrame(sales, header);
    df.ParseDates();
    df.DropMissingDates();
    r := Analyse(df.rows);
    DropMissingKeepsTotals(ParseDateColumn(sales));
  }
}
