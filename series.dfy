/** Labelled numeric series (a pandas Series produced by groupby().sum()),
    their ordering (sort_values, sort_index) and their truncation
    (head, nlargest). */
module Series {
  import opened Common

  datatype Entry<K> = Entry(key: K, value: real)

  type Series<K> = seq<Entry<K>>

  /** sort_values(ascending=False) or sort_values(ascending=True). */
  datatype Order = Descending | Ascending

  /** a may stand before b under order o. */
  predicate Precedes(a: real, b: real, o: Order)
  {
    match o
    case Descending => a >= b
    case Ascending => a <= b
  }

  ghost predicate Sorted<K>(s: Series<K>, o: Order)
  {
    forall i, j :: 0 <= i < j < |s| ==> Precedes(s[i].value, s[j].value, o)
  }

  ghost predicate DistinctKeys<K>(s: Series<K>)
  {
    forall i, j :: 0 <= i < j < |s| ==> s[i].key != s[j].key
  }

  function KeysOf<K>(s: Series<K>): set<K>
  {
    set e | e in s :: e.key
  }

  /** The sum of all values of a series. */
  function Total<K>(s: Series<K>): real
  {
    if s == [] then 0.0 else s[0].value + Total(s[1..])
  }

  ghost predicate IsPrefix<K>(p: Series<K>, s: Series<K>)
  {
    |p| <= |s| && p == s[..|p|]
  }

  function Insert<K>(e: Entry<K>, s: Series<K>, o: Order): Series<K>
  {
    if s == [] || Precedes(e.value, s[0].value, o) then [e] + s
    else [s[0]] + Insert(e, s[1..], o)
  }

  /** A sort by value in order o. Ties are left in an unspecified order, as
      with pandas' default quicksort: only the permutation and the order are
      promised (SortSpec). */
  function Sort<K>(s: Series<K>, o: Order): Series<K>
  {
    if s == [] then [] else Insert(s[0], Sort(s[1..], o), o)
  }

  /** head(n) / nlargest(n); None is an untruncated series. */
  function Truncate<K>(s: Series<K>, limit: Option<nat>): Series<K>
  {
    match limit
    case None => s
    case Some(n) => if |s| <= n then s else s[..n]
  }

  lemma KeysOfCons<K>(a: Entry<K>, t: Series<K>)
    ensures KeysOf([a] + t) == {a.key} + KeysOf(t)
  {
    assert forall e :: e in [a] + t <==> e == a || e in t;
  }

  lemma NotAKey<K>(k: K, t: Series<K>)
    requires forall i :: 0 <= i < |t| ==> t[i].key != k
    ensures k !in KeysOf(t)
  {
    forall e | e in t ensures e.key != k {
      var i :| 0 <= i < |t| && t[i] == e;
    }
  }

  /** A series headed by a has distinct keys exactly when its tail does and
      a's key is not among the tail's. */
  lemma ConsDistinct<K>(a: Entry<K>, t: Series<K>)
    ensures DistinctKeys([a] + t) <==> a.key !in KeysOf(t) && DistinctKeys(t)
  {
    var s := [a] + t;
    assert s[1..] == t;
    if DistinctKeys(s) {
      forall i | 0 <= i < |t| ensures t[i].key != a.key {
        assert s[0].key != s[i + 1].key;
      }
      NotAKey(a.key, t);
      forall i, j | 0 <= i < j < |t| ensures t[i].key != t[j].key {
        assert s[i + 1].key != s[j + 1].key;
      }
    }
    if a.key !in KeysOf(t) && DistinctKeys(t) {
      forall i, j | 0 <= i < j < |s| ensures s[i].key != s[j].key {
        if i == 0 {
          assert s[j] in t;
        } else {
          assert s[i] == t[i - 1] && s[j] == t[j - 1];
        }
      }
    }
  }

  lemma ConsSorted<K>(a: Entry<K>, t: Series<K>, o: Order)
    requires Sorted(t, o)
    requires forall x :: x in t ==> Precedes(a.value, x.value, o)
    ensures Sorted([a] + t, o)
  {
    var s := [a] + t;
    forall i, j | 0 <= i < j < |s| ensures Precedes(s[i].value, s[j].value, o) {
      if i == 0 {
        assert s[j] in t;
      } else {
        assert s[i] == t[i - 1] && s[j] == t[j - 1];
      }
    }
  }

  lemma {:induction false} InsertElements<K>(e: Entry<K>, s: Series<K>, o: Order)
    ensures multiset(Insert(e, s, o)) == multiset(s) + multiset{e}
    ensures forall x :: x in Insert(e, s, o) <==> x == e || x in s
    ensures |Insert(e, s, o)| == |s| + 1
    ensures Total(Insert(e, s, o)) == e.value + Total(s)
    decreases |s|
  {
    if s == [] || Precedes(e.value, s[0].value, o) {
      assert Insert(e, s, o)[1..] == s;
    } else {
      InsertElements(e, s[1..], o);
      assert s == [s[0]] + s[1..];
      assert Insert(e, s, o)[1..] == Insert(e, s[1..], o);
    }
  }

  lemma {:induction false} InsertSorted<K>(e: Entry<K>, s: Series<K>, o: Order)
    requires Sorted(s, o)
    ensures Sorted(Insert(e, s, o), o)
    decreases |s|
  {
    if s == [] || Precedes(e.value, s[0].value, o) {
      ConsSorted(e, s, o);
    } else {
      var tail := s[1..];
      var t := Insert(e, tail, o);
      assert Insert(e, s, o) == [s[0]] + t;
      InsertSorted(e, tail, o);
      InsertElements(e, tail, o);
      assert multiset(t) == multiset(tail) + multiset{e};
      forall x | x in t ensures Precedes(s[0].value, x.value, o) {
        assert x in multiset(t);
        if x != e {
          assert x in multiset(tail);
          var k :| 0 <= k < |tail| && tail[k] == x;
          assert s[k + 1] == x;
        }
      }
      ConsSorted(s[0], t, o);
    }
  }

  lemma {:induction false} InsertDistinct<K>(e: Entry<K>, s: Series<K>, o: Order)
    requires DistinctKeys(s) && e.key !in KeysOf(s)
    ensures DistinctKeys(Insert(e, s, o))
    ensures KeysOf(Insert(e, s, o)) == KeysOf(s) + {e.key}
    decreases |s|
  {
    InsertElements(e, s, o);
    if s == [] || Precedes(e.value, s[0].value, o) {
      ConsDistinct(e, s);
      KeysOfCons(e, s);
    } else {
      assert s == [s[0]] + s[1..];
      ConsDistinct(s[0], s[1..]);
      KeysOfCons(s[0], s[1..]);
      InsertDistinct(e, s[1..], o);
      ConsDistinct(s[0], Insert(e, s[1..], o));
      KeysOfCons(s[0], Insert(e, s[1..], o));
    }
  }

  lemma {:induction false} SortElements<K>(s: Series<K>, o: Order)
    ensures multiset(Sort(s, o)) == multiset(s)
    ensures forall x :: x in Sort(s, o) <==> x in s
    ensures |Sort(s, o)| == |s|
    ensures Total(Sort(s, o)) == Total(s)
  {
    if s != [] {
      SortElements(s[1..], o);
      InsertElements(s[0], Sort(s[1..], o), o);
      assert s == [s[0]] + s[1..];
    }
  }

  lemma {:induction false} SortSorted<K>(s: Series<K>, o: Order)
    ensures Sorted(Sort(s, o), o)
  {
    if s != [] {
      SortSorted(s[1..], o);
      InsertSorted(s[0], Sort(s[1..], o), o);
    }
  }

  lemma {:induction false} SortDistinct<K>(s: Series<K>, o: Order)
    requires DistinctKeys(s)
    ensures DistinctKeys(Sort(s, o))
  {
    if s != [] {
      assert s == [s[0]] + s[1..];
      ConsDistinct(s[0], s[1..]);
      SortDistinct(s[1..], o);
      SortElements(s[1..], o);
      SameKeys(Sort(s[1..], o), s[1..]);
      InsertDistinct(s[0], Sort(s[1..], o), o);
    }
  }

  lemma SameKeys<K>(a: Series<K>, b: Series<K>)
    requires forall x :: x in a <==> x in b
    ensures KeysOf(a) == KeysOf(b)
  {
  }

  /** Sorting is a permutation that is ordered, keeps the sum and keeps the
      keys distinct. */
  lemma SortSpec<K>(s: Series<K>, o: Order)
    ensures multiset(Sort(s, o)) == multiset(s)
    ensures forall x :: x in Sort(s, o) <==> x in s
    ensures |Sort(s, o)| == |s|
    ensures Sorted(Sort(s, o), o)
    ensures Total(Sort(s, o)) == Total(s)
    ensures KeysOf(Sort(s, o)) == KeysOf(s)
    ensures DistinctKeys(s) ==> DistinctKeys(Sort(s, o))
  {
    SortElements(s, o);
    SortSorted(s, o);
    SameKeys(Sort(s, o), s);
    if DistinctKeys(s) {
      SortDistinct(s, o);
    }
  }

  lemma {:induction false} DistinctKeysCount<K>(s: Series<K>)
    requires DistinctKeys(s)
    ensures |KeysOf(s)| == |s|
  {
    if s != [] {
      assert s == [s[0]] + s[1..];
      ConsDistinct(s[0], s[1..]);
      KeysOfCons(s[0], s[1..]);
      DistinctKeysCount(s[1..]);
    }
  }

  /** What a truncated, ordered series keeps: a prefix of the full order,
      of length min(n, |s|), and nothing it drops stands above what it keeps. */
  lemma TruncateSpec<K>(s: Series<K>, limit: Option<nat>, o: Order)
    requires Sorted(s, o)
    ensures IsPrefix(Truncate(s, limit), s)
    ensures Sorted(Truncate(s, limit), o)
    ensures limit.None? ==> Truncate(s, limit) == s
    ensures limit.Some? ==> |Truncate(s, limit)| == if |s| <= limit.value then |s| else limit.value
    ensures forall i, j :: 0 <= i < |Truncate(s, limit)| <= j < |s| ==> Precedes(Truncate(s, limit)[i].value, s[j].value, o)
  {
  }

  lemma {:induction false} TotalAppend<K>(a: Series<K>, b: Series<K>)
    ensures Total(a + b) == Total(a) + Total(b)
  {
    if a == [] {
      assert a + b == b;
    } else {
      assert (a + b)[1..] == a[1..] + b;
      TotalAppend(a[1..], b);
    }
  }

  // ---- Ordering by key, for the yearly series (sort_index / groupby's sorted keys).

  ghost predicate YearsAscending(s: Series<int>)
  {
    forall i, j :: 0 <= i < j < |s| ==> s[i].key < s[j].key
  }

  function InsertByYear(e: Entry<int>, s: Series<int>): Series<int>
  {
    if s == [] || e.key <= s[0].key then [e] + s
    else [s[0]] + InsertByYear(e, s[1..])
  }

  function SortByYear(s: Series<int>): Series<int>
  {
    if s == [] then [] else InsertByYear(s[0], SortByYear(s[1..]))
  }

  lemma {:induction false} InsertByYearElements(e: Entry<int>, s: Series<int>)
    ensures multiset(InsertByYear(e, s)) == multiset(s) + multiset{e}
    ensures forall x :: x in InsertByYear(e, s) <==> x == e || x in s
    ensures Total(InsertByYear(e, s)) == e.value + Total(s)
    decreases |s|
  {
    if s == [] || e.key <= s[0].key {
      assert InsertByYear(e, s)[1..] == s;
    } else {
      InsertByYearElements(e, s[1..]);
      assert s == [s[0]] + s[1..];
      assert InsertByYear(e, s)[1..] == InsertByYear(e, s[1..]);
    }
  }

  lemma YearsAscendingCons(a: Entry<int>, t: Series<int>)
    requires YearsAscending(t)
    requires forall x :: x in t ==> a.key < x.key
    ensures YearsAscending([a] + t)
  {
    var s := [a] + t;
    forall i, j | 0 <= i < j < |s| ensures s[i].key < s[j].key {
      if i == 0 {
        assert s[j] in t;
      } else {
        assert s[i] == t[i - 1] && s[j] == t[j - 1];
      }
    }
  }

  lemma {:induction false} InsertByYearAscending(e: Entry<int>, s: Series<int>)
    requires YearsAscending(s) && e.key !in KeysOf(s)
    ensures YearsAscending(InsertByYear(e, s))
    decreases |s|
  {
    if s == [] || e.key <= s[0].key {
      forall x | x in s ensures e.key < x.key {
        var k :| 0 <= k < |s| && s[k] == x;
        assert k == 0 || s[0].key < s[k].key;
      }
      YearsAscendingCons(e, s);
    } else {
      var t := InsertByYear(e, s[1..]);
      assert s == [s[0]] + s[1..];
      KeysOfCons(s[0], s[1..]);
      InsertByYearAscending(e, s[1..]);
      InsertByYearElements(e, s[1..]);
      forall x | x in t ensures s[0].key < x.key {
        if x != e {
          assert x in s[1..];
          var k :| 0 <= k < |s[1..]| && s[1..][k] == x;
          assert s[k + 1] == x;
        }
      }
      YearsAscendingCons(s[0], t);
    }
  }

  /** With distinct years, ordering by year is a permutation with strictly
      increasing years and the same sum. */
  lemma {:induction false} SortByYearSpec(s: Series<int>)
    requires DistinctKeys(s)
    ensures multiset(SortByYear(s)) == multiset(s)
    ensures forall x :: x in SortByYear(s) <==> x in s
    ensures KeysOf(SortByYear(s)) == KeysOf(s)
    ensures YearsAscending(SortByYear(s))
    ensures Total(SortByYear(s)) == Total(s)
  {
    if s != [] {
      assert s == [s[0]] + s[1..];
      ConsDistinct(s[0], s[1..]);
      SortByYearSpec(s[1..]);
      SameKeys(SortByYear(s[1..]), s[1..]);
      InsertByYearElements(s[0], SortByYear(s[1..]));
      InsertByYearAscending(s[0], SortByYear(s[1..]));
      assert forall x :: x in SortByYear(s) <==> x in s;
      SameKeys(SortByYear(s), s);
    }
  }
}
