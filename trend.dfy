/** The trend classifier of questaoBI-IA-8.py: is_monotonic_increasing,
    then is_monotonic_decreasing, on the yearly totals. */
module Trend {
  import opened Series

  datatype Trend = Rising | Falling | StableOrVariable

  /** The word the script prints for each trend. */
  function Label(t: Trend): (w: string)
    ensures t == Rising <==> w == "crescendo"
    ensures t == Falling <==> w == "decaindo"
    ensures t == StableOrVariable <==> w == "estável ou variável"
  {
    match t
    case Rising => "crescendo"
    case Falling => "decaindo"
    case StableOrVariable => "estável ou variável"
  }

  /** is_monotonic_increasing: every value at most its successor. */
  predicate MonotonicIncreasing(v: seq<real>)
  {
    |v| <= 1 || (v[0] <= v[1] && MonotonicIncreasing(v[1..]))
  }

  /** is_monotonic_decreasing: every value at least its successor. */
  predicate MonotonicDecreasing(v: seq<real>)
  {
    |v| <= 1 || (v[0] >= v[1] && MonotonicDecreasing(v[1..]))
  }

  /** Non-decreasing in the all-pairs sense. */
  ghost predicate NonDecreasing(v: seq<real>)
  {
    forall i, j :: 0 <= i < j < |v| ==> v[i] <= v[j]
  }

  /** Non-increasing in the all-pairs sense. */
  ghost predicate NonIncreasing(v: seq<real>)
  {
    forall i, j :: 0 <= i < j < |v| ==> v[i] >= v[j]
  }

  /** The adjacent-pairs check pandas makes is the all-pairs order. */
  lemma {:induction false} IncreasingIff(v: seq<real>)
    ensures MonotonicIncreasing(v) <==> NonDecreasing(v)
  {
    if |v| > 1 {
      IncreasingIff(v[1..]);
      if MonotonicIncreasing(v) {
        forall i, j | 0 <= i < j < |v| ensures v[i] <= v[j] {
          if i > 0 {
            assert v[1..][i - 1] <= v[1..][j - 1];
          } else if j > 1 {
            assert v[1..][0] <= v[1..][j - 1];
          }
        }
      }
      if NonDecreasing(v) {
        assert NonDecreasing(v[1..]) by {
          forall i, j | 0 <= i < j < |v[1..]| ensures v[1..][i] <= v[1..][j] {
            assert v[i + 1] <= v[j + 1];
          }
        }
      }
    }
  }

  lemma {:induction false} DecreasingIff(v: seq<real>)
    ensures MonotonicDecreasing(v) <==> NonIncreasing(v)
  {
    if |v| > 1 {
      DecreasingIff(v[1..]);
      if MonotonicDecreasing(v) {
        forall i, j | 0 <= i < j < |v| ensures v[i] >= v[j] {
          if i > 0 {
            assert v[1..][i - 1] >= v[1..][j - 1];
          } else if j > 1 {
            assert v[1..][0] >= v[1..][j - 1];
          }
        }
      }
      if NonIncreasing(v) {
        assert NonIncreasing(v[1..]) by {
          forall i, j | 0 <= i < j < |v[1..]| ensures v[1..][i] >= v[1..][j] {
            assert v[i + 1] >= v[j + 1];
          }
        }
      }
    }
  }

  /** The if/elif/else of the script: the increasing test comes first. */
  function Classify(v: seq<real>): (t: Trend)
    ensures t == Rising <==> NonDecreasing(v)
    ensures t == Falling <==> !NonDecreasing(v) && NonIncreasing(v)
    ensures t == StableOrVariable <==> !NonDecreasing(v) && !NonIncreasing(v)
  {
    IncreasingIff(v);
    DecreasingIff(v);
    if MonotonicIncreasing(v) then Rising
    else if MonotonicDecreasing(v) then Falling
    else StableOrVariable
  }

  /** A series with one year, or with the same total every year, counts as
      rising, because that test comes first. */
  lemma ConstantIsRising(v: seq<real>)
    requires forall i :: 0 <= i < |v| ==> v[i] == v[0]
    ensures Classify(v) == Rising
  {
    assert NonDecreasing(v) by {
      forall i, j | 0 <= i < j < |v| ensures v[i] <= v[j] {
        assert v[i] == v[0] && v[j] == v[0];
      }
    }
  }

  /** Two years that differ and one that goes back make the trend
      stable-or-variable. */
  lemma UpThenDownIsVariable(v: seq<real>, i: int, j: int, k: int)
    requires 0 <= i < j < |v| && 0 <= k < |v| - 1
    requires v[i] < v[j] && v[k] > v[k + 1]
    ensures Classify(v) == StableOrVariable
  {
  }

  /** The values of a series, in its order. */
  function Values<K>(s: Series<K>): (v: seq<real>)
    ensures |v| == |s| && forall i :: 0 <= i < |s| ==> v[i] == s[i].value
  {
    seq(|s|, i requires 0 <= i < |s| => s[i].value)
  }
}
