/** Yearly sales totals between 2009 and 2012, as the second dashboard and
    questaoBI-IA-8.py compute them, and the lookup of one year's total. */
module Yearly {
  import opened Common
  import opened Table
  import opened Series
  import opened Grouping
  import opened Dates

  /** Ano.between(2009, 2012): inclusive at both ends; a row without a year
      (its date is missing) is never in range. */
  predicate InYearRange(r: Sale)
  {
    YearOf(r).Some? && 2009 <= YearOf(r).value <= 2012
  }

  /** groupby("Ano")["Vendas"].sum() over the rows in range; the groupby
      orders the years ascending. */
  function YearlyTotals(rows: seq<Sale>): Series<int>
  {
    SortByYear(Group(Filter(rows, InYearRange), YearKey, SalesOf))
  }

  lemma YearlyEntries(rows: seq<Sale>)
    ensures forall e :: e in YearlyTotals(rows) ==>
      2009 <= e.key <= 2012 && e.value == SumFor(rows, YearKey, SalesOf, e.key)
  {
    var kept := Filter(rows, InYearRange);
    var g := Group(kept, YearKey, SalesOf);
    GroupSpec(kept, YearKey, SalesOf);
    GroupEntries(kept, YearKey, SalesOf);
    SortByYearSpec(g);
    forall e | e in YearlyTotals(rows) ensures 2009 <= e.key <= 2012 && e.value == SumFor(rows, YearKey, SalesOf, e.key) {
      assert e in g;
      var r :| r in kept && YearKey(r).Some? && YearKey(r).value == e.key;
      SumForFilter(rows, InYearRange, YearKey, SalesOf, e.key);
    }
  }

  lemma YearlyKeys(rows: seq<Sale>)
    ensures forall y :: y in KeysOf(YearlyTotals(rows)) <==>
      2009 <= y <= 2012 && exists r :: r in rows && YearOf(r) == Some(y)
  {
    var kept := Filter(rows, InYearRange);
    var g := Group(kept, YearKey, SalesOf);
    GroupSpec(kept, YearKey, SalesOf);
    SortByYearSpec(g);
    assert KeysOf(YearlyTotals(rows)) == KeySet(kept, YearKey);
    forall y ensures y in KeySet(kept, YearKey) <==> 2009 <= y <= 2012 && exists r :: r in rows && YearOf(r) == Some(y) {
      if 2009 <= y <= 2012 && exists r :: r in rows && YearOf(r) == Some(y) {
        var r :| r in rows && YearOf(r) == Some(y);
        assert r in kept;
      }
    }
  }

  /** The yearly series is empty exactly when no row is dated 2009 to 2012. */
  lemma YearlyEmpty(rows: seq<Sale>)
    ensures YearlyTotals(rows) == [] <==> forall r :: r in rows ==> !InYearRange(r)
  {
    var s := YearlyTotals(rows);
    YearlyKeys(rows);
    if r :| r in rows && InYearRange(r) {
      assert YearOf(r).value in KeysOf(s);
    }
    if s != [] {
      assert s[0].key in KeysOf(s);
    }
  }

  /** Strictly ascending years within lo..hi are at most hi - lo + 1. */
  lemma {:induction false} AscendingWithin(s: Series<int>, lo: int, hi: int)
    requires YearsAscending(s)
    requires forall i :: 0 <= i < |s| ==> lo <= s[i].key <= hi
    ensures |s| <= if lo <= hi then hi - lo + 1 else 0
  {
    if s != [] {
      var t := s[1..];
      assert YearsAscending(t) by {
        forall i, j | 0 <= i < j < |t| ensures t[i].key < t[j].key {
          assert s[i + 1].key < s[j + 1].key;
        }
      }
      forall i | 0 <= i < |t| ensures s[0].key + 1 <= t[i].key <= hi {
        assert s[0].key < s[i + 1].key;
      }
      AscendingWithin(t, s[0].key + 1, hi);
    }
  }

  lemma YearlyCount(rows: seq<Sale>)
    ensures |YearlyTotals(rows)| <= 4
  {
    var s := YearlyTotals(rows);
    YearlyAscending(rows);
    YearlyEntries(rows);
    forall i | 0 <= i < |s| ensures 2009 <= s[i].key <= 2012 {
      assert s[i] in s;
    }
    AscendingWithin(s, 2009, 2012);
  }

  lemma YearlyAscending(rows: seq<Sale>)
    ensures YearsAscending(YearlyTotals(rows))
  {
    var kept := Filter(rows, InYearRange);
    GroupSpec(kept, YearKey, SalesOf);
    SortByYearSpec(Group(kept, YearKey, SalesOf));
  }

  lemma YearlySum(rows: seq<Sale>)
    ensures Total(YearlyTotals(rows)) == SumAll(Filter(rows, InYearRange), SalesOf)
  {
    var kept := Filter(rows, InYearRange);
    var g := Group(kept, YearKey, SalesOf);
    GroupSpec(kept, YearKey, SalesOf);
    SortByYearSpec(g);
    SumKeyedAllKeyed(kept, YearKey, SalesOf);
  }

  /** The yearly series: ascending years, all within 2009..2012, at most
      four of them, exactly the years some row has in that range, each with
      the sum of Vendas over all rows of that year, and together adding up
      to the sales of the rows in range. */
  lemma YearlyTotalsSpec(rows: seq<Sale>)
    ensures YearsAscending(YearlyTotals(rows))
    ensures forall e :: e in YearlyTotals(rows) ==> 2009 <= e.key <= 2012
    ensures forall e :: e in YearlyTotals(rows) ==> e.value == SumFor(rows, YearKey, SalesOf, e.key)
    ensures forall y :: y in KeysOf(YearlyTotals(rows)) <==>
      2009 <= y <= 2012 && exists r :: r in rows && YearOf(r) == Some(y)
    ensures |YearlyTotals(rows)| <= 4
    ensures Total(YearlyTotals(rows)) == SumAll(Filter(rows, InYearRange), SalesOf)
  {
    var kept := Filter(rows, InYearRange);
    GroupSpec(kept, YearKey, SalesOf);
    SortByYearSpec(Group(kept, YearKey, SalesOf));
    YearlyEntries(rows);
    YearlyKeys(rows);
    YearlyCount(rows);
    YearlySum(rows);
  }

  /** Dropping the rows with a missing date first changes nothing: such rows
      never fall in the year range. */
  lemma DropMissingKeepsTotals(rows: seq<Sale>)
    ensures YearlyTotals(Filter(rows, HasDate)) == YearlyTotals(rows)
  {
    FilterFilter(rows, HasDate, InYearRange);
  }

  /** The error a lookup of an absent label raises. */
  datatype KeyError = KeyError(key: int)

  /** series.loc[y]: the total of year y, or a KeyError when y is absent. */
  function Loc(s: Series<int>, y: int): (r: Result<real, KeyError>)
    ensures r.Err? <==> y !in KeysOf(s)
    ensures r.Err? ==> r.error == KeyError(y)
    ensures r.Ok? ==> Entry(y, r.value) in s
  {
    if s == [] then Err(KeyError(y))
    else
      assert s == [s[0]] + s[1..];
      KeysOfCons(s[0], s[1..]);
      if s[0].key == y then Ok(s[0].value) else Loc(s[1..], y)
  }

  /** The total for 2009 fails with a KeyError exactly when no row is dated
      in 2009, and is otherwise the sum of that year's sales. */
  lemma Total2009(rows: seq<Sale>)
    ensures Loc(YearlyTotals(rows), 2009).Err? <==> forall r :: r in rows ==> YearOf(r) != Some(2009)
    ensures Loc(YearlyTotals(rows), 2009).Ok? ==>
      Loc(YearlyTotals(rows), 2009).value == SumFor(rows, YearKey, SalesOf, 2009)
  {
    YearlyTotalsSpec(rows);
  }
}
