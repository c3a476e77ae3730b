/** The integer nearest-rank percentile. */
module Percentile {
  import opened Wrappers

  predicate Ascending(s: seq<int>) {
    forall i, j :: 0 <= i <= j < |s| ==> s[i] <= s[j]
  }

  function Insert(x: int, s: seq<int>): seq<int> {
    if s == [] || x <= s[0] then [x] + s else [s[0]] + Insert(x, s[1..])
  }

  function Sort(s: seq<int>): seq<int> {
    if s == [] then [] else Insert(s[0], Sort(s[1..]))
  }

  /** How many values are at most r. */
  function AtMost(s: seq<int>, r: int): nat {
    if s == [] then 0 else (if s[0] <= r then 1 else 0) + AtMost(s[1..], r)
  }

  /** How many values are strictly below r. */
  function Below(s: seq<int>, r: int): nat {
    AtMost(s, r - 1)
  }

  lemma {:induction false} InsertSpec(x: int, s: seq<int>)
    requires Ascending(s)
    ensures Ascending(Insert(x, s)) && |Insert(x, s)| == |s| + 1
    ensures forall y :: y in Insert(x, s) <==> y == x || y in s
  {
    if s != [] && x > s[0] {
      InsertSpec(x, s[1..]);
      assert s == [s[0]] + s[1..];
      var rest := Insert(x, s[1..]);
      forall i | 0 <= i < |rest| ensures s[0] <= rest[i] {
        assert rest[i] in rest;
      }
    }
  }

  lemma {:induction false} SortSpec(s: seq<int>)
    ensures Ascending(Sort(s)) && |Sort(s)| == |s|
    ensures forall y :: y in Sort(s) <==> y in s
  {
    if s != [] {
      SortSpec(s[1..]);
      InsertSpec(s[0], Sort(s[1..]));
      assert s == [s[0]] + s[1..];
    }
  }

  lemma {:induction false} InsertKeepsCounts(x: int, s: seq<int>, r: int)
    ensures AtMost(Insert(x, s), r) == AtMost([x], r) + AtMost(s, r)
  {
    if s != [] && x > s[0] {
      InsertKeepsCounts(x, s[1..], r);
      assert ([s[0]] + Insert(x, s[1..]))[1..] == Insert(x, s[1..]);
    } else {
      assert ([x] + s)[1..] == s;
    }
  }

  lemma {:induction false} SortKeepsCounts(s: seq<int>, r: int)
    ensures AtMost(Sort(s), r) == AtMost(s, r)
  {
    if s != [] {
      SortKeepsCounts(s[1..], r);
      InsertKeepsCounts(s[0], Sort(s[1..]), r);
    }
  }

  /** In an ascending list the value at k has at least k + 1 values up to it and at most k below it. */
  lemma {:induction false} PositionCounts(s: seq<int>, k: nat)
    requires Ascending(s) && k < |s|
    ensures AtMost(s, s[k]) >= k + 1 && Below(s, s[k]) <= k
  {
    if k > 0 {
      PositionCounts(s[1..], k - 1);
    } else {
      NoneBelow(s, s[0]);
    }
  }

  lemma {:induction false} NoneBelow(s: seq<int>, r: int)
    requires forall i :: 0 <= i < |s| ==> s[i] >= r
    ensures Below(s, r) == 0
  {
    if s != [] {
      NoneBelow(s[1..], r);
    }
  }

  lemma {:induction false} CountsGrow(s: seq<int>, q: int, r: int)
    requires q <= r
    ensures AtMost(s, q) <= AtMost(s, r) <= |s|
  {
    if s != [] {
      CountsGrow(s[1..], q, r);
    }
  }

  // ceil(percentile * n / 100)
  function RankFor(percentile: int, n: nat): (rank: int)
    requires 0 < percentile <= 100
    ensures 0 <= rank <= n && (n > 0 ==> rank >= 1)
    ensures (rank - 1) * 100 < percentile * n || n == 0
    ensures rank * 100 >= percentile * n
  {
    (percentile * n + 99) / 100
  }

  // r splits the values at the rank: enough at or below it, fewer strictly below.
  predicate AtRank(values: seq<int>, rank: int, r: int) {
    AtMost(values, r) >= rank && Below(values, r) < rank
  }

  /** At most one number stands at a rank. */
  lemma RankIsUnique(values: seq<int>, rank: int, q: int, r: int)
    requires AtRank(values, rank, q) && AtRank(values, rank, r)
    ensures q == r
  {
    if q < r {
      CountsGrow(values, q, r - 1);
    } else if r < q {
      CountsGrow(values, r, q - 1);
    }
  }

  datatype Answer = InvalidPercentile | NoValues | Value(r: int)

  /** nearest_rank_percentile: the element standing at the rank, or why there is none. */
  method NearestRankPercentile(values: seq<int>, percentile: int) returns (answer: Answer)
    ensures answer.InvalidPercentile? <==> !(0 < percentile <= 100)
    ensures answer.NoValues? <==> 0 < percentile <= 100 && values == []
    ensures answer.Value? ==> answer.r in values && AtRank(values, RankFor(percentile, |values|), answer.r)
  {
    if !(0 < percentile <= 100) {
      return InvalidPercentile;
    }
    var ordered := Sort(values);
    SortSpec(values);
    if ordered == [] {
      return NoValues;
    }
    var rank := RankFor(percentile, |ordered|);
    var k := (if rank >= 1 then rank else 1) - 1;
    PositionCounts(ordered, k);
    SortKeepsCounts(values, ordered[k]);
    SortKeepsCounts(values, ordered[k] - 1);
    assert ordered[k] in ordered;
    return Value(ordered[k]);
  }
}
