/** The join engine: the dashboards' left merge of the sales table with a
    dimension table (merge(dim, on=ID, how="left")) and the standalone
    scripts' inner merge of per-ID totals with a dimension table
    (merge(dim, on=ID)). */
module Joins {
  import opened Common
  import opened Table
  import opened Series
  import opened Grouping

  /** Every dimension row has its own identifier. */
  ghost predicate UniqueIds(dim: seq<DimRow>)
  {
    forall i, j :: 0 <= i < j < |dim| ==> dim[i].id != dim[j].id
  }

  /** The names of all dimension rows with identifier id, in table order. */
  function MatchNames(dim: seq<DimRow>, id: int): (names: seq<string>)
    ensures forall n :: n in names <==> DimRow(id, n) in dim
    ensures |names| <= |dim|
  {
    if dim == [] then []
    else (if dim[0].id == id then [dim[0].name] else []) + MatchNames(dim[1..], id)
  }

  /** The name of the first dimension row with identifier id, if any. */
  function Lookup(dim: seq<DimRow>, id: int): (r: Option<string>)
    ensures r.Some? ==> DimRow(id, r.value) in dim
    ensures r.None? <==> forall j :: 0 <= j < |dim| ==> dim[j].id != id
  {
    if dim == [] then None
    else if dim[0].id == id then Some(dim[0].name)
    else Lookup(dim[1..], id)
  }

  /** The rows one sales row turns into: one per matching dimension row,
      or the row itself with a missing name when nothing matches. */
  function JoinRow(r: Sale, dim: seq<DimRow>, d: Dimension): seq<Sale>
  {
    var names := MatchNames(dim, ForeignKey(r, d));
    if names == [] then [WithName(r, d, None)]
    else seq(|names|, i requires 0 <= i < |names| => WithName(r, d, Some(names[i])))
  }

  /** merge(dim, on=<foreign key of d>, how="left"). */
  function LeftJoin(rows: seq<Sale>, dim: seq<DimRow>, d: Dimension): seq<Sale>
  {
    if rows == [] then [] else JoinRow(rows[0], dim, d) + LeftJoin(rows[1..], dim, d)
  }

  lemma {:induction false} UniqueMatch(dim: seq<DimRow>, id: int)
    requires UniqueIds(dim)
    ensures MatchNames(dim, id) == if Lookup(dim, id).Some? then [Lookup(dim, id).value] else []
  {
    if dim != [] {
      assert UniqueIds(dim[1..]) by {
        forall i, j | 0 <= i < j < |dim[1..]| ensures dim[1..][i].id != dim[1..][j].id {
          assert dim[i + 1].id != dim[j + 1].id;
        }
      }
      UniqueMatch(dim[1..], id);
      if dim[0].id == id {
        forall j | 0 <= j < |dim[1..]| ensures dim[1..][j].id != id {
          assert dim[0].id != dim[j + 1].id;
        }
      }
    }
  }

  /** A left join never loses a sales row: every row yields at least one
      output row, so the output is at least as long as the input, and every
      input row is found in the output with the dimension's name filled in. */
  lemma {:induction false} LeftJoinKeepsRows(rows: seq<Sale>, dim: seq<DimRow>, d: Dimension)
    ensures |LeftJoin(rows, dim, d)| >= |rows|
    ensures forall r :: r in rows ==>
      exists x :: x in LeftJoin(rows, dim, d) && x == WithName(r, d, NameOf(x, d))
  {
    if rows != [] {
      LeftJoinKeepsRows(rows[1..], dim, d);
      var head := JoinRow(rows[0], dim, d);
      var out := LeftJoin(rows, dim, d);
      assert out == head + LeftJoin(rows[1..], dim, d);
      var names := MatchNames(dim, ForeignKey(rows[0], d));
      var first := head[0];
      if names == [] {
        assert first == WithName(rows[0], d, None);
      } else {
        assert first == WithName(rows[0], d, Some(names[0]));
      }
      assert first in out && first == WithName(rows[0], d, NameOf(first, d));
      forall r | r in rows
        ensures exists x :: x in out && x == WithName(r, d, NameOf(x, d))
      {
        if r != rows[0] {
          assert r in rows[1..];
          var x :| x in LeftJoin(rows[1..], dim, d) && x == WithName(r, d, NameOf(x, d));
          assert x in out;
        }
      }
    }
  }

  /** Every row a left join produces is an input row with the name of
      dimension d filled in (and nothing else changed). */
  lemma {:induction false} LeftJoinOrigins(rows: seq<Sale>, dim: seq<DimRow>, d: Dimension)
    ensures forall x :: x in LeftJoin(rows, dim, d) ==>
      exists r :: r in rows && x == WithName(r, d, NameOf(x, d))
  {
    if rows != [] {
      LeftJoinOrigins(rows[1..], dim, d);
      var head := JoinRow(rows[0], dim, d);
      assert LeftJoin(rows, dim, d) == head + LeftJoin(rows[1..], dim, d);
      forall x | x in LeftJoin(rows, dim, d)
        ensures exists r :: r in rows && x == WithName(r, d, NameOf(x, d))
      {
        if x in head {
          var names := MatchNames(dim, ForeignKey(rows[0], d));
          if names == [] {
            assert x == WithName(rows[0], d, None);
          } else {
            var k :| 0 <= k < |names| && x == head[k];
            assert x == WithName(rows[0], d, Some(names[k]));
          }
          assert x == WithName(rows[0], d, NameOf(x, d));
        } else {
          var r :| r in rows[1..] && x == WithName(r, d, NameOf(x, d));
          assert r in rows;
        }
      }
    }
  }

  /** With unique dimension identifiers the left join is row for row: the
      same number of rows, in the same order, each the original row with
      the looked-up name, or a missing name when its key has no match. */
  lemma {:induction false} LeftJoinUnique(rows: seq<Sale>, dim: seq<DimRow>, d: Dimension)
    requires UniqueIds(dim)
    ensures |LeftJoin(rows, dim, d)| == |rows|
    ensures forall i :: 0 <= i < |rows| ==>
      LeftJoin(rows, dim, d)[i] == WithName(rows[i], d, Lookup(dim, ForeignKey(rows[i], d)))
  {
    if rows != [] {
      LeftJoinUnique(rows[1..], dim, d);
      UniqueMatch(dim, ForeignKey(rows[0], d));
      var head := JoinRow(rows[0], dim, d);
      assert head == [WithName(rows[0], d, Lookup(dim, ForeignKey(rows[0], d)))];
      var out := LeftJoin(rows, dim, d);
      assert out == head + LeftJoin(rows[1..], dim, d);
      forall i | 0 <= i < |rows|
        ensures out[i] == WithName(rows[i], d, Lookup(dim, ForeignKey(rows[i], d)))
      {
        if i > 0 {
          assert out[i] == LeftJoin(rows[1..], dim, d)[i - 1];
          assert rows[1..][i - 1] == rows[i];
        }
      }
    }
  }

  /** The sellers join followed by the suppliers join (dashboard-678910.py)
      keeps every row in place and adds both names, each looked up by its
      own key. */
  lemma SellerThenSupplier(rows: seq<Sale>, sellers: seq<DimRow>, suppliers: seq<DimRow>)
    requires UniqueIds(sellers) && UniqueIds(suppliers)
    ensures |LeftJoin(LeftJoin(rows, sellers, Seller), suppliers, Supplier)| == |rows|
    ensures forall i :: 0 <= i < |rows| ==>
      LeftJoin(LeftJoin(rows, sellers, Seller), suppliers, Supplier)[i] ==
        rows[i].(sellerName := Lookup(sellers, rows[i].sellerId),
                 supplierName := Lookup(suppliers, rows[i].supplierId))
  {
    var once := LeftJoin(rows, sellers, Seller);
    LeftJoinUnique(rows, sellers, Seller);
    LeftJoinUnique(once, suppliers, Supplier);
  }

  // ---- The inner merge of per-ID totals with a dimension table.

  /** merge(dim, on=ID) of a series keyed by ID: one entry (ID, name) per
      series entry and matching dimension row; IDs without a dimension row
      are dropped. */
  function InnerMerge(s: Series<int>, dim: seq<DimRow>): Series<(int, string)>
  {
    if s == [] then []
    else
      var names := MatchNames(dim, s[0].key);
      seq(|names|, i requires 0 <= i < |names| => Entry((s[0].key, names[i]), s[0].value))
      + InnerMerge(s[1..], dim)
  }

  /** Exactly the pairs of a series entry and a dimension row with the same
      ID survive the inner merge, carrying the entry's value. */
  lemma {:induction false} InnerMergeMembers(s: Series<int>, dim: seq<DimRow>)
    ensures forall e :: e in InnerMerge(s, dim) <==>
      Entry(e.key.0, e.value) in s && DimRow(e.key.0, e.key.1) in dim
  {
    if s != [] {
      InnerMergeMembers(s[1..], dim);
      var names := MatchNames(dim, s[0].key);
      var head := seq(|names|, i requires 0 <= i < |names| => Entry((s[0].key, names[i]), s[0].value));
      assert InnerMerge(s, dim) == head + InnerMerge(s[1..], dim);
      assert s == [s[0]] + s[1..];
      forall e ensures e in head <==> e.key.0 == s[0].key && e.value == s[0].value && DimRow(e.key.0, e.key.1) in dim {
        if e.key.0 == s[0].key && e.value == s[0].value && DimRow(e.key.0, e.key.1) in dim {
          var k :| 0 <= k < |names| && names[k] == e.key.1;
          assert head[k] == e;
        }
      }
    }
  }

  /** With unique IDs each series entry yields at most one merged entry, so
      the merge has at most as many entries as the series, and distinct IDs
      stay distinct. */
  lemma {:induction false} InnerMergeUnique(s: Series<int>, dim: seq<DimRow>)
    requires UniqueIds(dim)
    ensures |InnerMerge(s, dim)| <= |s|
    ensures DistinctKeys(s) ==> DistinctKeys(InnerMerge(s, dim))
    ensures forall e :: e in InnerMerge(s, dim) ==> e.key.0 in KeysOf(s)
  {
    if s != [] {
      InnerMergeUnique(s[1..], dim);
      InnerMergeMembers(s[1..], dim);
      UniqueMatch(dim, s[0].key);
      var rest := InnerMerge(s[1..], dim);
      var names := MatchNames(dim, s[0].key);
      var head := seq(|names|, i requires 0 <= i < |names| => Entry((s[0].key, names[i]), s[0].value));
      assert InnerMerge(s, dim) == head + rest;
      assert s == [s[0]] + s[1..];
      KeysOfCons(s[0], s[1..]);
      if DistinctKeys(s) {
        ConsDistinct(s[0], s[1..]);
        if head != [] {
          assert head == [head[0]];
          forall e | e in rest ensures e.key.0 != s[0].key {
            assert Entry(e.key.0, e.value) in s[1..];
          }
          ConsDistinct(head[0], rest);
        }
      }
    }
  }

  /** The chain of the standalone scripts that rank dimension rows:
      groupby(<id>)[col].sum().reset_index(), then merge(dim, on=<id>), then
      sort_values(by=col, ascending=False). */
  function MergedRanking(rows: seq<Sale>, key: Sale -> Option<int>, val: Sale -> real, dim: seq<DimRow>): Series<(int, string)>
  {
    Sort(InnerMerge(Group(rows, key, val), dim), Descending)
  }

  lemma GroupMembers(rows: seq<Sale>, key: Sale -> Option<int>, val: Sale -> real)
    ensures forall id, v :: Entry(id, v) in Group(rows, key, val) <==>
      id in KeySet(rows, key) && v == SumFor(rows, key, val, id)
  {
    var g := Group(rows, key, val);
    GroupSpec(rows, key, val);
    GroupEntries(rows, key, val);
    forall id, v | id in KeySet(rows, key) && v == SumFor(rows, key, val, id)
      ensures Entry(id, v) in g
    {
      var x :| x in g && x.key == id;
    }
  }

  /** The ranked merge: in non-increasing order of value; an entry (id, name)
      with value v is there exactly when id is the ID of some rows, v their
      sum, and (id, name) a dimension row, so groups without a dimension row
      are dropped. With unique dimension IDs each group appears at most once
      and there are at most as many entries as groups. */
  lemma MergedRankingSpec(rows: seq<Sale>, key: Sale -> Option<int>, val: Sale -> real, dim: seq<DimRow>)
    ensures Sorted(MergedRanking(rows, key, val, dim), Descending)
    ensures forall e :: e in MergedRanking(rows, key, val, dim) <==>
      e.key.0 in KeySet(rows, key) && DimRow(e.key.0, e.key.1) in dim && e.value == SumFor(rows, key, val, e.key.0)
    ensures UniqueIds(dim) ==> DistinctKeys(MergedRanking(rows, key, val, dim))
    ensures UniqueIds(dim) ==> |MergedRanking(rows, key, val, dim)| <= |KeySet(rows, key)|
  {
    var g := Group(rows, key, val);
    var m := InnerMerge(g, dim);
    GroupSpec(rows, key, val);
    GroupMembers(rows, key, val);
    InnerMergeMembers(g, dim);
    SortSpec(m, Descending);
    if UniqueIds(dim) {
      InnerMergeUnique(g, dim);
      DistinctKeysCount(g);
    }
  }
}
