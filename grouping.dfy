/** The aggregation engine: a boolean-mask filter (df[mask]), a grouped sum
    (groupby(key)[col].sum()) and the ranking every question is an instance
    of (filter, group-by-sum, order, truncate). */
module Grouping {
  import opened Common
  import opened Series
  import opened Table

  /** df[mask]: the rows that satisfy keep, in their original order. */
  function Filter(rows: seq<Sale>, keep: Sale -> bool): (kept: seq<Sale>)
    ensures forall x :: x in kept <==> x in rows && keep(x)
    ensures |kept| <= |rows|
    ensures (forall x :: x in rows ==> keep(x)) ==> kept == rows
  {
    if rows == [] then []
    else
      var front := rows[..|rows| - 1];
      assert rows == front + [rows[|rows| - 1]];
      Filter(front, keep) + (if keep(rows[|rows| - 1]) then [rows[|rows| - 1]] else [])
  }

  /** The mask keeps every copy of a kept row and no copy of a dropped one:
      the filtered rows, counted with repetition, are those of the input
      that satisfy keep. */
  lemma {:induction false} FilterCounts(rows: seq<Sale>, keep: Sale -> bool)
    ensures forall x :: multiset(Filter(rows, keep))[x] == if keep(x) then multiset(rows)[x] else 0
  {
    if rows != [] {
      var front := rows[..|rows| - 1];
      var last := rows[|rows| - 1];
      assert rows == front + [last];
      FilterCounts(front, keep);
      assert Filter(rows, keep) == Filter(front, keep) + (if keep(last) then [last] else []);
      assert multiset(rows) == multiset(front) + multiset{last};
    }
  }

  /** The last row of a table is kept exactly when it satisfies keep, after
      the rows before it. */
  lemma FilterSnoc(front: seq<Sale>, last: Sale, keep: Sale -> bool)
    ensures Filter(front + [last], keep) == Filter(front, keep) + (if keep(last) then [last] else [])
  {
    var rows := front + [last];
    assert rows[..|rows| - 1] == front;
    assert rows[|rows| - 1] == last;
  }

  /** One more row at the end of the second table keeps the concatenation
      law. */
  lemma FilterAppendStep(a: seq<Sale>, front: seq<Sale>, last: Sale, keep: Sale -> bool)
    requires Filter(a + front, keep) == Filter(a, keep) + Filter(front, keep)
    ensures Filter((a + front) + [last], keep) == Filter(a, keep) + Filter(front + [last], keep)
  {
    FilterSnoc(a + front, last, keep);
    FilterSnoc(front, last, keep);
  }

  /** The mask works row by row and keeps the order: filtering a
      concatenation is concatenating the filtered parts. */
  lemma {:induction false} FilterAppend(a: seq<Sale>, b: seq<Sale>, keep: Sale -> bool)
    ensures Filter(a + b, keep) == Filter(a, keep) + Filter(b, keep)
    decreases |b|
  {
    if b == [] {
      assert a + b == a;
      assert Filter(a, keep) + [] == Filter(a, keep);
    } else {
      var front := b[..|b| - 1];
      assert b == front + [b[|b| - 1]];
      assert a + b == (a + front) + [b[|b| - 1]];
      FilterAppend(a, front, keep);
      FilterAppendStep(a, front, b[|b| - 1], keep);
    }
  }

  /** The groups a groupby forms: every non-missing key of a row. */
  function KeySet<K>(rows: seq<Sale>, key: Sale -> Option<K>): set<K>
  {
    set r | r in rows && key(r).Some? :: key(r).value
  }

  /** The sum of val over the rows whose key is k: the value of group k. */
  function SumFor<K(==)>(rows: seq<Sale>, key: Sale -> Option<K>, val: Sale -> real, k: K): real
  {
    if rows == [] then 0.0
    else
      var last := rows[|rows| - 1];
      SumFor(rows[..|rows| - 1], key, val, k) + (if key(last) == Some(k) then val(last) else 0.0)
  }

  /** The sum of val over the rows that have a key at all (rows with a
      missing key fall into no group). */
  function SumKeyed<K>(rows: seq<Sale>, key: Sale -> Option<K>, val: Sale -> real): real
  {
    if rows == [] then 0.0
    else
      var last := rows[|rows| - 1];
      SumKeyed(rows[..|rows| - 1], key, val) + (if key(last).Some? then val(last) else 0.0)
  }

  /** The value a series holds for key k, 0 when k is absent. */
  function ValueOf<K(==)>(s: Series<K>, k: K): real
  {
    if s == [] then 0.0
    else if s[0].key == k then s[0].value
    else ValueOf(s[1..], k)
  }

  /** Adds v to the entry of key k, or appends a new entry for k. */
  function AddTo<K(==)>(s: Series<K>, k: K, v: real): Series<K>
  {
    if s == [] then [Entry(k, v)]
    else if s[0].key == k then [Entry(k, s[0].value + v)] + s[1..]
    else [s[0]] + AddTo(s[1..], k, v)
  }

  /** groupby(key)[val].sum(): one entry per non-missing key, in order of
      first appearance. (pandas orders the groups by key; the rankings below
      re-sort them, and the one series whose key order matters, the yearly
      totals, is sorted by year explicitly.) */
  function Group<K(==)>(rows: seq<Sale>, key: Sale -> Option<K>, val: Sale -> real): Series<K>
  {
    if rows == [] then []
    else
      var last := rows[|rows| - 1];
      var g := Group(rows[..|rows| - 1], key, val);
      match key(last)
      case None => g
      case Some(k) => AddTo(g, k, val(last))
  }

  /** The full ranking: grouped sums ordered by value. */
  function Ranking<K(==)>(rows: seq<Sale>, key: Sale -> Option<K>, val: Sale -> real, o: Order): Series<K>
  {
    Sort(Group(rows, key, val), o)
  }

  /** The ranking truncated to limit entries (head / nlargest). */
  function Rank<K(==)>(rows: seq<Sale>, key: Sale -> Option<K>, val: Sale -> real, o: Order, limit: Option<nat>): Series<K>
  {
    Truncate(Ranking(rows, key, val, o), limit)
  }

  function Min(a: int, b: int): int { if a <= b then a else b }

  /** Every entry of s is a group of rows (a key some row has) holding the
      sum of val over that group. */
  ghost predicate GroupSums<K>(s: Series<K>, rows: seq<Sale>, key: Sale -> Option<K>, val: Sale -> real)
  {
    forall e :: e in s ==> e.key in KeySet(rows, key) && e.value == SumFor(rows, key, val, e.key)
  }

  /** No group of rows left out of s stands above (in order o) an entry
      that s kept. */
  ghost predicate NoneOmittedAbove<K>(s: Series<K>, rows: seq<Sale>, key: Sale -> Option<K>, val: Sale -> real, o: Order)
  {
    forall k, e :: k in KeySet(rows, key) && k !in KeysOf(s) && e in s ==> Precedes(e.value, SumFor(rows, key, val, k), o)
  }

  // ---- Lemmas about the grouped sum.

  lemma {:induction false} ValueOfEntry<K>(s: Series<K>, i: nat)
    requires DistinctKeys(s) && i < |s|
    ensures ValueOf(s, s[i].key) == s[i].value
  {
    if i > 0 {
      assert s == [s[0]] + s[1..];
      ConsDistinct(s[0], s[1..]);
      assert s[i] == s[1..][i - 1];
      assert s[0].key != s[i].key;
      ValueOfEntry(s[1..], i - 1);
    }
  }

  lemma {:induction false} ValueOfAbsent<K>(s: Series<K>, k: K)
    requires k !in KeysOf(s)
    ensures ValueOf(s, k) == 0.0
  {
    if s != [] {
      assert s == [s[0]] + s[1..];
      KeysOfCons(s[0], s[1..]);
      ValueOfAbsent(s[1..], k);
    }
  }

  lemma {:induction false} AddToSpec<K>(s: Series<K>, k: K, v: real)
    requires DistinctKeys(s)
    ensures DistinctKeys(AddTo(s, k, v))
    ensures KeysOf(AddTo(s, k, v)) == KeysOf(s) + {k}
    ensures forall j :: ValueOf(AddTo(s, k, v), j) == ValueOf(s, j) + (if j == k then v else 0.0)
    ensures Total(AddTo(s, k, v)) == Total(s) + v
  {
    var a := AddTo(s, k, v);
    if s == [] {
      assert a[1..] == [];
    } else {
      assert s == [s[0]] + s[1..];
      ConsDistinct(s[0], s[1..]);
      KeysOfCons(s[0], s[1..]);
      if s[0].key == k {
        assert a == [Entry(k, s[0].value + v)] + s[1..];
        assert a[1..] == s[1..];
        ConsDistinct(a[0], s[1..]);
        KeysOfCons(a[0], s[1..]);
        forall j ensures ValueOf(a, j) == ValueOf(s, j) + (if j == k then v else 0.0) {
        }
      } else {
        AddToSpec(s[1..], k, v);
        assert a == [s[0]] + AddTo(s[1..], k, v);
        assert a[1..] == AddTo(s[1..], k, v);
        ConsDistinct(s[0], AddTo(s[1..], k, v));
        KeysOfCons(s[0], AddTo(s[1..], k, v));
      }
    }
  }

  lemma KeySetSnoc<K>(rows: seq<Sale>, key: Sale -> Option<K>)
    requires rows != []
    ensures KeySet(rows, key) ==
      KeySet(rows[..|rows| - 1], key) +
      (if key(rows[|rows| - 1]).Some? then {key(rows[|rows| - 1]).value} else {})
  {
    var front, last := rows[..|rows| - 1], rows[|rows| - 1];
    assert rows == front + [last];
    assert forall r :: r in rows <==> r in front || r == last;
  }

  /** What groupby().sum() computes: one entry per non-missing key, keys
      distinct, each entry's value the sum over that key's rows, and the
      values adding up to the sum over all keyed rows. */
  lemma {:induction false} GroupSpec<K>(rows: seq<Sale>, key: Sale -> Option<K>, val: Sale -> real)
    ensures DistinctKeys(Group(rows, key, val))
    ensures KeysOf(Group(rows, key, val)) == KeySet(rows, key)
    ensures forall k :: ValueOf(Group(rows, key, val), k) == SumFor(rows, key, val, k)
    ensures Total(Group(rows, key, val)) == SumKeyed(rows, key, val)
  {
    if rows != [] {
      var front, last := rows[..|rows| - 1], rows[|rows| - 1];
      GroupSpec(front, key, val);
      KeySetSnoc(rows, key);
      if key(last).Some? {
        AddToSpec(Group(front, key, val), key(last).value, val(last));
      }
    }
  }

  /** Every entry of the grouped series is a group of the input and holds
      that group's sum. */
  lemma GroupEntries<K>(rows: seq<Sale>, key: Sale -> Option<K>, val: Sale -> real)
    ensures forall e :: e in Group(rows, key, val) ==>
      e.key in KeySet(rows, key) && e.value == SumFor(rows, key, val, e.key)
  {
    var g := Group(rows, key, val);
    GroupSpec(rows, key, val);
    forall e | e in g ensures e.key in KeySet(rows, key) && e.value == SumFor(rows, key, val, e.key) {
      var i :| 0 <= i < |g| && g[i] == e;
      ValueOfEntry(g, i);
      assert ValueOf(g, e.key) == SumFor(rows, key, val, e.key);
    }
  }

  /** A group that no row has sums to 0. */
  lemma SumForAbsent<K>(rows: seq<Sale>, key: Sale -> Option<K>, val: Sale -> real, k: K)
    requires k !in KeySet(rows, key)
    ensures SumFor(rows, key, val, k) == 0.0
  {
    GroupSpec(rows, key, val);
    ValueOfAbsent(Group(rows, key, val), k);
  }

  // ---- Lemmas about the ranking.

  lemma RankingSpec<K>(rows: seq<Sale>, key: Sale -> Option<K>, val: Sale -> real, o: Order)
    ensures DistinctKeys(Ranking(rows, key, val, o))
    ensures Sorted(Ranking(rows, key, val, o), o)
    ensures KeysOf(Ranking(rows, key, val, o)) == KeySet(rows, key)
    ensures |Ranking(rows, key, val, o)| == |KeySet(rows, key)|
    ensures Total(Ranking(rows, key, val, o)) == SumKeyed(rows, key, val)
    ensures forall e :: e in Ranking(rows, key, val, o) ==>
      e.key in KeySet(rows, key) && e.value == SumFor(rows, key, val, e.key)
  {
    var g := Group(rows, key, val);
    GroupSpec(rows, key, val);
    GroupEntries(rows, key, val);
    SortSpec(g, o);
    DistinctKeysCount(Sort(g, o));
  }

  /** A group left out by the truncation stands no higher than any group
      kept. */
  lemma OmittedGroups<K>(rows: seq<Sale>, key: Sale -> Option<K>, val: Sale -> real, o: Order, limit: Option<nat>, k: K, e: Entry<K>)
    requires k in KeySet(rows, key) && k !in KeysOf(Rank(rows, key, val, o, limit))
    requires e in Rank(rows, key, val, o, limit)
    ensures Precedes(e.value, SumFor(rows, key, val, k), o)
  {
    var s := Ranking(rows, key, val, o);
    var r := Rank(rows, key, val, o, limit);
    RankingSpec(rows, key, val, o);
    TruncateSpec(s, limit, o);
    var x :| x in s && x.key == k;
    var j :| 0 <= j < |s| && s[j] == x;
    var i :| 0 <= i < |r| && r[i] == e;
    forall p | 0 <= p < |r| ensures s[p].key != k {
      assert r[p] == s[p] && r[p] in r;
    }
    assert j >= |r|;
  }

  /** Everything a question's answer promises: distinct groups of the input,
      each with its own sum, in the requested order; a prefix of the full
      ranking with min(limit, number of groups) entries; no omitted group
      above a kept one; and, untruncated, every group present with the
      totals adding up to the sum over all keyed rows. */
  lemma RankSpec<K>(rows: seq<Sale>, key: Sale -> Option<K>, val: Sale -> real, o: Order, limit: Option<nat>)
    ensures DistinctKeys(Rank(rows, key, val, o, limit))
    ensures Sorted(Rank(rows, key, val, o, limit), o)
    ensures forall e :: e in Rank(rows, key, val, o, limit) ==>
      e.key in KeySet(rows, key) && e.value == SumFor(rows, key, val, e.key)
    ensures IsPrefix(Rank(rows, key, val, o, limit), Ranking(rows, key, val, o))
    ensures limit.Some? ==> |Rank(rows, key, val, o, limit)| == Min(limit.value, |KeySet(rows, key)|)
    ensures limit.None? ==> KeysOf(Rank(rows, key, val, o, limit)) == KeySet(rows, key)
    ensures limit.None? ==> Total(Rank(rows, key, val, o, limit)) == SumKeyed(rows, key, val)
    ensures forall k, e ::
      (k in KeySet(rows, key) && k !in KeysOf(Rank(rows, key, val, o, limit)) && e in Rank(rows, key, val, o, limit))
      ==> Precedes(e.value, SumFor(rows, key, val, k), o)
  {
    var s := Ranking(rows, key, val, o);
    var r := Rank(rows, key, val, o, limit);
    RankingSpec(rows, key, val, o);
    TruncateSpec(s, limit, o);
    assert DistinctKeys(r) by {
      forall i, j | 0 <= i < j < |r| ensures r[i].key != r[j].key {
        assert r[i] == s[i] && r[j] == s[j];
      }
    }
    assert forall e :: e in r ==> e in s;
    forall k, e | k in KeySet(rows, key) && k !in KeysOf(r) && e in r
      ensures Precedes(e.value, SumFor(rows, key, val, k), o)
    {
      OmittedGroups(rows, key, val, o, limit, k, e);
    }
  }

  // ---- Lemmas relating filters and sums.

  /** The plain column sum, df[col].sum(). */
  function SumAll(rows: seq<Sale>, val: Sale -> real): real
  {
    if rows == [] then 0.0 else SumAll(rows[..|rows| - 1], val) + val(rows[|rows| - 1])
  }

  /** When no row has a missing key, the groups together hold the whole
      column sum. */
  lemma {:induction false} SumKeyedAllKeyed<K>(rows: seq<Sale>, key: Sale -> Option<K>, val: Sale -> real)
    requires forall r :: r in rows ==> key(r).Some?
    ensures SumKeyed(rows, key, val) == SumAll(rows, val)
  {
    if rows != [] {
      var front := rows[..|rows| - 1];
      assert forall r :: r in front ==> r in rows;
      assert rows[|rows| - 1] in rows;
      SumKeyedAllKeyed(front, key, val);
    }
  }

  /** Filtering by p and then by a stricter q is filtering by q. */
  lemma {:induction false} FilterFilter(rows: seq<Sale>, p: Sale -> bool, q: Sale -> bool)
    requires forall i :: 0 <= i < |rows| && q(rows[i]) ==> p(rows[i])
    ensures Filter(Filter(rows, p), q) == Filter(rows, q)
  {
    if rows != [] {
      var front := rows[..|rows| - 1];
      var last := rows[|rows| - 1];
      assert forall i :: 0 <= i < |front| ==> front[i] == rows[i];
      FilterFilter(front, p, q);
      var fp := Filter(rows, p);
      assert fp == Filter(front, p) + (if p(last) then [last] else []);
      assert q(last) ==> p(last);
      if p(last) {
        assert fp[..|fp| - 1] == Filter(front, p) && fp[|fp| - 1] == last;
        assert Filter(fp, q) == Filter(Filter(front, p), q) + (if q(last) then [last] else []);
      } else {
        assert fp == Filter(front, p);
        assert Filter(rows, q) == Filter(front, q);
      }
    }
  }

  /** A filter that keeps every row of group k leaves that group's sum as it
      was. */
  lemma {:induction false} SumForFilter<K>(rows: seq<Sale>, keep: Sale -> bool, key: Sale -> Option<K>, val: Sale -> real, k: K)
    requires forall i :: 0 <= i < |rows| && key(rows[i]) == Some(k) ==> keep(rows[i])
    ensures SumFor(Filter(rows, keep), key, val, k) == SumFor(rows, key, val, k)
  {
    if rows != [] {
      var front := rows[..|rows| - 1];
      var last := rows[|rows| - 1];
      assert forall i :: 0 <= i < |front| ==> front[i] == rows[i];
      SumForFilter(front, keep, key, val, k);
      var f := Filter(rows, keep);
      assert f == Filter(front, keep) + (if keep(last) then [last] else []);
      assert key(last) == Some(k) ==> keep(last);
      if keep(last) {
        assert f[..|f| - 1] == Filter(front, keep) && f[|f| - 1] == last;
        assert SumFor(f, key, val, k) == SumFor(Filter(front, keep), key, val, k) + (if key(last) == Some(k) then val(last) else 0.0);
      } else {
        assert f == Filter(front, keep);
      }
    }
  }

  /** The groups formed after a filter are the keys of the rows it keeps. */
  lemma KeySetFilter<K>(rows: seq<Sale>, keep: Sale -> bool, key: Sale -> Option<K>)
    ensures forall k :: k in KeySet(Filter(rows, keep), key) <==>
      exists r :: r in rows && keep(r) && key(r) == Some(k)
  {
    var kept := Filter(rows, keep);
    forall k ensures k in KeySet(kept, key) <==> exists r :: r in rows && keep(r) && key(r) == Some(k) {
      if exists r :: r in rows && keep(r) && key(r) == Some(k) {
        var r :| r in rows && keep(r) && key(r) == Some(k);
        assert r in kept;
      }
    }
  }
}
