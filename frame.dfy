/** The sales DataFrame as the dashboards and the yearly scripts hold it:
    one table that each loading step replaces or rewrites in place. */
module Frame {
  import opened Table
  import opened Coercion
  import opened Dates
  import opened Joins
  import opened Grouping

  /** The columns a list of column names selects. */
  function ColumnSet(cols: seq<Measure>): set<Measure>
  {
    set m | m in cols
  }

  class SalesFrame {
    /** The rows of the table, in order. */
    var rows: seq<Sale>
    /** The numeric columns the table has (the CSV header's). */
    var columns: set<Measure>

    /** Every row has exactly the table's numeric columns. */
    ghost predicate Valid()
      reads this
    {
      forall r :: r in rows ==> r.measures.Keys == columns
    }

    /** The table read_csv returns. */
    constructor (sales: seq<Sale>, header: set<Measure>)
      requires forall r :: r in sales ==> r.measures.Keys == header
      ensures Valid() && rows == sales && columns == header
    {
      rows := sales;
      columns := header;
    }

    /** The table replaced by its left join with dim on the key of d. */
    method MergeLeft(dim: seq<DimRow>, d: Dimension)
      requires Valid()
      modifies this
      ensures Valid() && columns == old(columns)
      ensures rows == LeftJoin(old(rows), dim, d)
    {
      LeftJoinOrigins(rows, dim, d);
      rows := LeftJoin(rows, dim, d);
    }

    /** The column loop of the loaders: each listed column the table has is
        coerced to numbers in place; a listed column the table lacks is
        skipped. */
    method CoerceColumns(cols: seq<Measure>)
      requires Valid()
      modifies this
      ensures Valid() && columns == old(columns)
      ensures rows == CoerceRows(old(rows), ColumnSet(cols) * columns)
    {
      var k := 0;
      CoerceRowsNothing(rows);
      assert ColumnSet(cols[..0]) * columns == {};
      while k < |cols|
        invariant 0 <= k <= |cols|
        invariant Valid() && columns == old(columns)
        invariant rows == CoerceRows(old(rows), ColumnSet(cols[..k]) * columns)
      {
        var col := cols[k];
        assert cols[..k + 1] == cols[..k] + [col];
        if col in columns {
          CoerceRowsStep(old(rows), ColumnSet(cols[..k]) * columns, col);
          assert ColumnSet(cols[..k + 1]) * columns == ColumnSet(cols[..k]) * columns + {col};
          rows := CoerceRows(rows, {col});
        } else {
          assert ColumnSet(cols[..k + 1]) * columns == ColumnSet(cols[..k]) * columns;
        }
        k := k + 1;
      }
      assert cols[..|cols|] == cols;
    }

    /** The Data column overwritten by its parse. */
    method ParseDates()
      requires Valid()
      modifies this
      ensures Valid() && columns == old(columns)
      ensures rows == ParseDateColumn(old(rows))
    {
      rows := ParseDateColumn(rows);
    }

    /** The rows whose date is missing dropped. */
    method DropMissingDates()
      requires Valid()
      modifies this
      ensures Valid() && columns == old(columns)
      ensures rows == Filter(old(rows), HasDate)
    {
      rows := Filter(rows, HasDate);
    }
  }
}
