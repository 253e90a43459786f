/** questaoBI-IA-3.py: sales per category for the rows whose country code
    reads "BRA" in any letter case, largest first. */
module Question3 {
  import opened Common
  import opened Table
  import opened Series
  import opened Grouping

  /** str.upper on one character, for the ASCII letters. */
  function UpperChar(c: char): (u: char)
    ensures 'a' <= c <= 'z' ==> u as int == c as int - 32
    ensures !('a' <= c <= 'z') ==> u == c
  {
    if 'a' <= c <= 'z' then (c as int - 32) as char else c
  }

  /** str.upper on a string, character by character. */
  function Upper(s: string): (u: string)
    ensures |u| == |s| && forall i :: 0 <= i < |s| ==> u[i] == UpperChar(s[i])
  {
    seq(|s|, i requires 0 <= i < |s| => UpperChar(s[i]))
  }

  /** The mask of the script: the code, upper-cased, is "BRA". */
  predicate IsBrazilCode(r: Sale)
  {
    Upper(r.countryCode) == "BRA"
  }

  /** The mask accepts every spelling of "bra" in any mix of cases, and
      nothing else. */
  lemma BrazilCodeIff(code: string)
    ensures Upper(code) == "BRA" <==>
      |code| == 3 && code[0] in {'b', 'B'} && code[1] in {'r', 'R'} && code[2] in {'a', 'A'}
  {
    if Upper(code) == "BRA" {
      assert UpperChar(code[0]) == 'B' && UpperChar(code[1]) == 'R' && UpperChar(code[2]) == 'A';
    }
    if |code| == 3 && code[0] in {'b', 'B'} && code[1] in {'r', 'R'} && code[2] in {'a', 'A'} {
      assert Upper(code)[0] == 'B' && Upper(code)[1] == 'R' && Upper(code)[2] == 'A';
    }
  }

  /** Per-category sales over the Brazilian rows, largest first and
      untruncated: exactly the categories some Brazilian row has, each with
      its sum, adding up to the Brazilian sales. */
  function CategoriesByCode(rows: seq<Sale>): (s: Series<string>)
    ensures Sorted(s, Descending) && DistinctKeys(s)
    ensures GroupSums(s, Filter(rows, IsBrazilCode), CategoryKey, SalesOf)
    ensures forall c :: c in KeysOf(s) <==> exists r :: r in rows && IsBrazilCode(r) && r.category == c
    ensures Total(s) == SumAll(Filter(rows, IsBrazilCode), SalesOf)
  {
    var kept := Filter(rows, IsBrazilCode);
    RankSpec(kept, CategoryKey, SalesOf, Descending, None);
    KeySetFilter(rows, IsBrazilCode, CategoryKey);
    SumKeyedAllKeyed(kept, CategoryKey, SalesOf);
    Rank(kept, CategoryKey, SalesOf, Descending, None)
  }
}
