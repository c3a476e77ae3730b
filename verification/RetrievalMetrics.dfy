/** Recall and NDCG of a ranking, for any positive strictly decreasing discount. */
module RetrievalMetrics {
  import opened Fusion

  // 1 / log2(rank + 1) in the program.
  type Discount = nat -> real

  ghost predicate Discounting(d: Discount) {
    (forall r: nat :: d(r) > 0.0) && (forall r: nat, s: nat :: r < s ==> d(r) > d(s))
  }

  function Least(a: nat, b: nat): nat {
    if a <= b then a else b
  }

  /** How many of the first n documents are relevant. */
  function Hits(ranking: seq<int>, relevant: set<int>, n: nat): nat
    requires n <= |ranking|
  {
    if n == 0 then 0 else Hits(ranking, relevant, n - 1) + if ranking[n - 1] in relevant then 1 else 0
  }

  function Recall(ranking: seq<int>, relevant: set<int>, k: nat): real
    requires k > 0 && relevant != {}
  {
    Hits(ranking, relevant, Least(k, |ranking|)) as real / Least(k, |relevant|) as real
  }

  function Dcg(d: Discount, ranking: seq<int>, relevant: set<int>, n: nat): real
    requires n <= |ranking|
  {
    if n == 0 then 0.0
    else Dcg(d, ranking, relevant, n - 1) + if ranking[n - 1] in relevant then d(n) else 0.0
  }

  function Ideal(d: Discount, n: nat): real {
    if n == 0 then 0.0 else Ideal(d, n - 1) + d(n)
  }

  /** The first n documents are there and all relevant. */
  predicate StartsRelevant(ranking: seq<int>, relevant: set<int>, n: nat) {
    n <= |ranking| && forall i :: 0 <= i < n ==> ranking[i] in relevant
  }

  function Ndcg(d: Discount, ranking: seq<int>, relevant: set<int>): real
    requires relevant != {} && Ideal(d, Least(10, |relevant|)) != 0.0
  {
    Dcg(d, ranking, relevant, Least(10, |ranking|)) / Ideal(d, Least(10, |relevant|))
  }

  // ----- Hits -----

  function Found(ranking: seq<int>, relevant: set<int>, n: nat): set<int>
    requires n <= |ranking|
  {
    set i | 0 <= i < n && ranking[i] in relevant :: ranking[i]
  }

  lemma {:induction false} HitsAreDistinct(ranking: seq<int>, relevant: set<int>, n: nat)
    requires NoDuplicates(ranking) && n <= |ranking|
    ensures Hits(ranking, relevant, n) == |Found(ranking, relevant, n)|
  {
    if n > 0 {
      var before, last := Found(ranking, relevant, n - 1), ranking[n - 1];
      HitsAreDistinct(ranking, relevant, n - 1);
      assert last !in before;
      assert Found(ranking, relevant, n) == before + if last in relevant then {last} else {};
    }
  }

  /** A ranking without duplicates never hits more often than there are positions or relevant documents. */
  lemma HitsAreBounded(ranking: seq<int>, relevant: set<int>, n: nat)
    requires NoDuplicates(ranking) && n <= |ranking|
    ensures Hits(ranking, relevant, n) <= Least(n, |relevant|)
  {
    HitsAreDistinct(ranking, relevant, n);
    SubsetSize(Found(ranking, relevant, n), relevant);
    HitsAtMost(ranking, relevant, n);
  }

  lemma SubsetSize(a: set<int>, b: set<int>)
    requires a <= b
    ensures |a| <= |b|
  {
    assert b == a + (b - a);
  }

  lemma {:induction false} HitsAtMost(ranking: seq<int>, relevant: set<int>, n: nat)
    requires n <= |ranking|
    ensures Hits(ranking, relevant, n) <= n
    ensures Hits(ranking, relevant, n) == n <==> StartsRelevant(ranking, relevant, n)
  {
    if n > 0 {
      HitsAtMost(ranking, relevant, n - 1);
    }
  }

  lemma {:induction false} HitsGrow(ranking: seq<int>, relevant: set<int>, m: nat, n: nat)
    requires m <= n <= |ranking|
    ensures Hits(ranking, relevant, m) <= Hits(ranking, relevant, n)
  {
    if m < n {
      HitsGrow(ranking, relevant, m, n - 1);
    }
  }

  lemma DivideBound(a: real, b: real)
    requires 0.0 <= a <= b && b > 0.0
    ensures 0.0 <= a / b <= 1.0
    ensures a / b == 1.0 <==> a == b
  {
    assert a / b * b == a;
  }

  /** Recall is a fraction, and full exactly when it found as many as it could. */
  lemma RecallIsFraction(ranking: seq<int>, relevant: set<int>, k: nat)
    requires NoDuplicates(ranking) && relevant != {} && k > 0
    ensures 0.0 <= Recall(ranking, relevant, k) <= 1.0
    ensures Recall(ranking, relevant, k) == 1.0
       <==> Hits(ranking, relevant, Least(k, |ranking|)) == Least(k, |relevant|)
  {
    HitsAreBounded(ranking, relevant, Least(k, |ranking|));
    DivideBound(Hits(ranking, relevant, Least(k, |ranking|)) as real, Least(k, |relevant|) as real);
  }

  // ----- Gain -----

  lemma {:induction false} IdealGrows(d: Discount, m: nat, n: nat)
    requires Discounting(d) && m <= n
    ensures 0.0 <= Ideal(d, m) <= Ideal(d, n)
    ensures m < n ==> Ideal(d, m) < Ideal(d, n)
  {
    if m < n {
      IdealGrows(d, m, n - 1);
    } else if n > 0 {
      IdealGrows(d, n - 1, n - 1);
    }
  }

  /** The gain of h hits is at most that of h leading hits, with equality exactly when they lead. */
  lemma {:induction false} GainAtMostIdeal(d: Discount, ranking: seq<int>, relevant: set<int>, n: nat)
    requires Discounting(d) && n <= |ranking|
    ensures var h := Hits(ranking, relevant, n);
            && 0.0 <= Dcg(d, ranking, relevant, n) <= Ideal(d, h)
            && (Dcg(d, ranking, relevant, n) == Ideal(d, h) <==> StartsRelevant(ranking, relevant, h))
  {
    if n > 0 {
      var h := Hits(ranking, relevant, n - 1);
      GainAtMostIdeal(d, ranking, relevant, n - 1);
      HitsAtMost(ranking, relevant, n - 1);
      if ranking[n - 1] in relevant {
        assert d(n) <= d(h + 1);
        if StartsRelevant(ranking, relevant, h + 1) && h + 1 < n {
          HitsAtMost(ranking, relevant, h + 1);
          HitsGrow(ranking, relevant, h + 1, n - 1);
        }
      }
    }
  }

  /**
   NDCG at ten of a duplicate-free ranking lies between zero and one, and is one exactly when the first
   min(10, number of relevant documents) results are all relevant.
   */
  lemma NdcgIsOneExactlyWhenLeading(d: Discount, ranking: seq<int>, relevant: set<int>)
    requires Discounting(d) && NoDuplicates(ranking) && relevant != {}
    ensures Ideal(d, Least(10, |relevant|)) > 0.0
    ensures 0.0 <= Ndcg(d, ranking, relevant) <= 1.0
    ensures Ndcg(d, ranking, relevant) == 1.0 <==> StartsRelevant(ranking, relevant, Least(10, |relevant|))
  {
    var n, m := Least(10, |ranking|), Least(10, |relevant|);
    var h := Hits(ranking, relevant, n);
    IdealGrows(d, 0, m);
    GainAtMostIdeal(d, ranking, relevant, n);
    HitsAreBounded(ranking, relevant, n);
    IdealGrows(d, h, m);
    DivideBound(Dcg(d, ranking, relevant, n), Ideal(d, m));
    if StartsRelevant(ranking, relevant, m) {
      HitsAtMost(ranking, relevant, m);
      HitsGrow(ranking, relevant, m, n);
    }
  }

  // ----- One relevant document -----

  lemma {:induction false} GainOfOne(d: Discount, ranking: seq<int>, doc: int, p: nat, n: nat)
    requires NoDuplicates(ranking) && p < |ranking| && ranking[p] == doc && n <= |ranking|
    ensures Dcg(d, ranking, {doc}, n) == if p < n then d(p + 1) else 0.0
    ensures Hits(ranking, {doc}, n) == if p < n then 1 else 0
  {
    if n > 0 {
      GainOfOne(d, ranking, doc, p, n - 1);
    }
  }

  /**
   With one relevant document, found at rank r, NDCG at ten is the discount of rank r over that of rank one when r is at
   most ten and zero beyond; recall at k is one when r is at most k and zero beyond.
   */
  lemma OneRelevantDocument(d: Discount, ranking: seq<int>, doc: int, r: nat, k: nat)
    requires Discounting(d) && NoDuplicates(ranking) && 1 <= r <= |ranking| && ranking[r - 1] == doc && k > 0
    ensures Ideal(d, 1) == d(1) > 0.0 && Least(10, |{doc}|) == 1
    ensures Ndcg(d, ranking, {doc}) == if r <= 10 then d(r) / d(1) else 0.0
    ensures Recall(ranking, {doc}, k) == if r <= k then 1.0 else 0.0
  {
    assert Ideal(d, 1) == Ideal(d, 0) + d(1);
    assert |{doc}| == 1;
    GainOfOne(d, ranking, doc, r - 1, Least(10, |ranking|));
    GainOfOne(d, ranking, doc, r - 1, Least(k, |ranking|));
  }
}
