/** Reciprocal-rank fusion of two retrieval rankings, and the suppression of duplicate offers. */
module Fusion {
  import opened Wrappers

  const RRF_K := 60

  // ----- Scores -----

  // What the element at a position contributes to a document; ranks count from one.
  function Credit(ranked: seq<int>, i: nat, doc: int): real
    requires i < |ranked|
  {
    if ranked[i] == doc then 1.0 / (RRF_K + i + 1) as real else 0.0
  }

  // The credit a document has from the first n positions.
  function Credits(ranked: seq<int>, n: nat, doc: int): real
    requires n <= |ranked|
  {
    if n == 0 then 0.0 else Credits(ranked, n - 1, doc) + Credit(ranked, n - 1, doc)
  }

  function Fused(bm25: seq<int>, dense: seq<int>, doc: int): real {
    Credits(bm25, |bm25|, doc) + Credits(dense, |dense|, doc)
  }

  predicate NoDuplicates(ids: seq<int>) {
    forall i, j :: 0 <= i < j < |ids| ==> ids[i] != ids[j]
  }

  // ----- Rankings by a score -----

  type Score = int -> real

  // Greater score first, then the smaller document.
  predicate Before(score: Score, x: int, y: int) {
    score(x) > score(y) || (score(x) == score(y) && x < y)
  }

  predicate Ordered(score: Score, ids: seq<int>) {
    forall i, j :: 0 <= i < j < |ids| ==> Before(score, ids[i], ids[j])
  }

  // The candidates, each exactly once, best first.
  ghost predicate IsRanking(score: Score, candidates: set<int>, ids: seq<int>) {
    Ordered(score, ids) && (forall x :: x in ids <==> x in candidates)
  }

  lemma OrderedHasNoDuplicates(score: Score, ids: seq<int>)
    requires Ordered(score, ids)
    ensures NoDuplicates(ids)
  {
  }

  /** There is one ranking of a set of candidates by a score. */
  lemma {:induction false} RankingIsUnique(score: Score, candidates: set<int>, a: seq<int>, b: seq<int>)
    requires IsRanking(score, candidates, a) && IsRanking(score, candidates, b)
    ensures a == b
    decreases |a|
  {
    EmptyRanking(score, candidates, a);
    EmptyRanking(score, candidates, b);
    if a != [] {
      assert a[0] in a;
      assert a[0] in b;
      FirstIsBest(score, candidates, a, b);
      RankingWithoutFirst(score, candidates, a);
      RankingWithoutFirst(score, candidates, b);
      RankingIsUnique(score, candidates - {a[0]}, a[1..], b[1..]);
      assert a == [a[0]] + a[1..] && b == [b[0]] + b[1..];
    }
  }

  lemma EmptyRanking(score: Score, candidates: set<int>, ids: seq<int>)
    requires IsRanking(score, candidates, ids)
    ensures ids == [] <==> candidates == {}
  {
    if ids != [] {
      assert ids[0] in ids;
    } else {
      assert forall x :: x in candidates ==> x in ids;
    }
  }

  lemma FirstIsBest(score: Score, candidates: set<int>, a: seq<int>, b: seq<int>)
    requires IsRanking(score, candidates, a) && IsRanking(score, candidates, b) && a != [] && b != []
    ensures a[0] == b[0]
  {
    assert a[0] in a && b[0] in b;
    assert a[0] in candidates && b[0] in candidates;
    assert a[0] in b && b[0] in a;
    var i :| 0 <= i < |b| && b[i] == a[0];
    var j :| 0 <= j < |a| && a[j] == b[0];
    assert i > 0 ==> Before(score, b[0], b[i]);
    assert j > 0 ==> Before(score, a[0], a[j]);
  }

  lemma RankingWithoutFirst(score: Score, candidates: set<int>, ids: seq<int>)
    requires IsRanking(score, candidates, ids) && ids != []
    ensures IsRanking(score, candidates - {ids[0]}, ids[1..])
  {
    var tail := ids[1..];
    assert forall i :: 0 <= i < |tail| ==> tail[i] == ids[i + 1];
    forall x ensures x in tail <==> x in candidates - {ids[0]} {
      if x in tail {
        var i :| 0 <= i < |tail| && tail[i] == x;
        assert Before(score, ids[0], ids[i + 1]);
      }
      if x in candidates - {ids[0]} {
        var i :| 0 <= i < |ids| && ids[i] == x;
        assert tail[i - 1] == x;
      }
    }
  }

  function Insert(score: Score, x: int, ids: seq<int>): seq<int> {
    if ids == [] || Before(score, x, ids[0]) then [x] + ids else [ids[0]] + Insert(score, x, ids[1..])
  }

  // sorted(items, key=(-score, id))
  function Sort(score: Score, ids: seq<int>): seq<int> {
    if ids == [] then [] else Insert(score, ids[0], Sort(score, ids[1..]))
  }

  lemma {:induction false} InsertMembers(score: Score, x: int, ids: seq<int>)
    ensures forall y :: y in Insert(score, x, ids) <==> y == x || y in ids
  {
    if ids != [] && !Before(score, x, ids[0]) {
      InsertMembers(score, x, ids[1..]);
      assert ids == [ids[0]] + ids[1..];
    }
  }

  lemma {:induction false} InsertOrders(score: Score, x: int, ids: seq<int>)
    requires Ordered(score, ids) && x !in ids
    ensures Ordered(score, Insert(score, x, ids))
  {
    if ids != [] && !Before(score, x, ids[0]) {
      InsertOrders(score, x, ids[1..]);
      InsertMembers(score, x, ids[1..]);
      var rest := Insert(score, x, ids[1..]);
      assert x != ids[0];
      forall j | 0 <= j < |rest| ensures Before(score, ids[0], rest[j]) {
        assert rest[j] in rest;
        assert rest[j] == x || rest[j] in ids[1..];
      }
    }
  }

  lemma {:induction false} SortSpec(score: Score, ids: seq<int>)
    requires NoDuplicates(ids)
    ensures Ordered(score, Sort(score, ids)) && forall x :: x in Sort(score, ids) <==> x in ids
  {
    if ids != [] {
      SortSpec(score, ids[1..]);
      InsertOrders(score, ids[0], Sort(score, ids[1..]));
      InsertMembers(score, ids[0], Sort(score, ids[1..]));
      assert ids == [ids[0]] + ids[1..];
    }
  }

  // ----- Fusion -----

  function Members(ids: seq<int>): set<int> {
    set i | 0 <= i < |ids| :: ids[i]
  }

  function Candidates(bm25: seq<int>, dense: seq<int>): set<int> {
    Members(bm25) + Members(dense)
  }

  function FusedScore(bm25: seq<int>, dense: seq<int>): Score {
    doc => Fused(bm25, dense, doc)
  }

  ghost predicate IsFusion(bm25: seq<int>, dense: seq<int>, ids: seq<int>) {
    IsRanking(FusedScore(bm25, dense), Candidates(bm25, dense), ids)
  }

  // One pass over a ranking: scores[d] = scores.get(d, 0.0) + 1.0 / (RRF_K + rank).
  method Accumulate(ranked: seq<int>, scores: map<int, real>, keys: seq<int>)
    returns (scores': map<int, real>, keys': seq<int>)
    requires KeysInOrder(scores, keys)
    ensures KeysInOrder(scores', keys')
    ensures scores'.Keys == scores.Keys + Members(ranked)
    ensures forall doc :: doc in scores' ==>
              scores'[doc] == (if doc in scores then scores[doc] else 0.0) + Credits(ranked, |ranked|, doc)
  {
    scores', keys' := scores, keys;
    for i := 0 to |ranked|
      invariant KeysInOrder(scores', keys')
      invariant scores'.Keys == scores.Keys + Members(ranked[..i])
      invariant forall doc :: doc in scores' ==>
                  scores'[doc] == (if doc in scores then scores[doc] else 0.0) + Credits(ranked, i, doc)
    {
      var doc := ranked[i];
      if doc !in scores' {
        NoCredit(ranked, i, doc);
        keys' := keys' + [doc];
      }
      var sum := (if doc in scores' then scores'[doc] else 0.0) + 1.0 / (RRF_K + i + 1) as real;
      assert Members(ranked[..i + 1]) == Members(ranked[..i]) + {doc} by {
        assert ranked[..i + 1] == ranked[..i] + [doc];
        MembersGrow(ranked[..i], doc);
      }
      scores' := scores'[doc := sum];
    }
    assert ranked[..|ranked|] == ranked;
  }

  // The dict's keys in insertion order.
  ghost predicate KeysInOrder(scores: map<int, real>, keys: seq<int>) {
    NoDuplicates(keys) && (forall x :: x in keys <==> x in scores)
  }

  lemma MembersGrow(ids: seq<int>, x: int)
    ensures Members(ids + [x]) == Members(ids) + {x}
  {
    var grown := ids + [x];
    assert grown[|ids|] == x;
    forall y | y in Members(ids) ensures y in Members(grown) {
      var i :| 0 <= i < |ids| && ids[i] == y;
      assert grown[i] == y;
    }
  }

  lemma {:induction false} NoCredit(ranked: seq<int>, n: nat, doc: int)
    requires n <= |ranked| && doc !in Members(ranked[..n])
    ensures Credits(ranked, n, doc) == 0.0
  {
    if n > 0 {
      assert ranked[..n] == ranked[..n - 1] + [ranked[n - 1]];
      MembersGrow(ranked[..n - 1], ranked[n - 1]);
      NoCredit(ranked, n - 1, doc);
    }
  }

  /** fuse_rrf: the two passes over one dict give exactly the ranking by fused score. */
  method FuseRrf(bm25: seq<int>, dense: seq<int>) returns (ids: seq<int>)
    ensures IsFusion(bm25, dense, ids)
  {
    var scores, keys := Accumulate(bm25, map[], []);
    scores, keys := Accumulate(dense, scores, keys);
    forall doc | doc in scores ensures scores[doc] == Fused(bm25, dense, doc) {
      if doc !in Members(bm25) {
        assert bm25[..|bm25|] == bm25;
        NoCredit(bm25, |bm25|, doc);
      }
    }
    var score: Score := doc => if doc in scores then scores[doc] else 0.0;
    ids := Sort(score, keys);
    SortSpec(score, keys);
    forall i, j | 0 <= i < j < |ids| ensures Before(FusedScore(bm25, dense), ids[i], ids[j]) {
      assert ids[i] in keys && ids[j] in keys;
      assert Before(score, ids[i], ids[j]);
    }
  }

  /** The order of the two inputs does not matter. */
  lemma FusionIsSymmetric(bm25: seq<int>, dense: seq<int>, a: seq<int>, b: seq<int>)
    requires IsFusion(bm25, dense, a) && IsFusion(dense, bm25, b)
    ensures a == b
  {
    forall i, j | 0 <= i < j < |b| ensures Before(FusedScore(bm25, dense), b[i], b[j]) {
      assert Before(FusedScore(dense, bm25), b[i], b[j]);
    }
    RankingIsUnique(FusedScore(bm25, dense), Candidates(bm25, dense), a, b);
  }

  // x stands at a better position than y, or y is not there at all.
  predicate AheadIn(ranked: seq<int>, x: int, y: int) {
    exists i :: 0 <= i < |ranked| && ranked[i] == x && y !in ranked[..i]
  }

  lemma {:induction false} CreditAfter(ranked: seq<int>, doc: int, i: nat, n: nat)
    requires NoDuplicates(ranked) && i < n <= |ranked| && ranked[i] == doc
    ensures Credits(ranked, n, doc) == 1.0 / (RRF_K + i + 1) as real
    decreases n
  {
    if n == i + 1 {
      assert doc !in Members(ranked[..i]);
      NoCredit(ranked, i, doc);
    } else {
      CreditAfter(ranked, doc, i, n - 1);
    }
  }

  lemma AheadEarnsMore(ranked: seq<int>, x: int, y: int)
    requires NoDuplicates(ranked) && x != y && AheadIn(ranked, x, y)
    ensures Credits(ranked, |ranked|, x) > Credits(ranked, |ranked|, y)
  {
    var i :| 0 <= i < |ranked| && ranked[i] == x && y !in ranked[..i];
    CreditAfter(ranked, x, i, |ranked|);
    if y in ranked {
      var j :| 0 <= j < |ranked| && ranked[j] == y;
      forall k | 0 <= k < i ensures ranked[k] != y {
        assert ranked[..i][k] == ranked[k];
      }
      CreditAfter(ranked, y, j, |ranked|);
      Reciprocal(RRF_K + i + 1, RRF_K + j + 1);
    } else {
      assert ranked[..|ranked|] == ranked;
      NoCredit(ranked, |ranked|, y);
    }
  }

  lemma Reciprocal(m: nat, n: nat)
    requires 0 < m < n
    ensures 1.0 / m as real > 1.0 / n as real
  {
  }

  /** A document ahead of another in both rankings is ahead of it in the fusion. */
  lemma FusionRespectsDominance(bm25: seq<int>, dense: seq<int>, ids: seq<int>, i: nat, j: nat)
    requires IsFusion(bm25, dense, ids) && NoDuplicates(bm25) && NoDuplicates(dense)
    requires i < |ids| && j < |ids| && i != j
    requires AheadIn(bm25, ids[i], ids[j]) && AheadIn(dense, ids[i], ids[j])
    ensures i < j
  {
    var score := FusedScore(bm25, dense);
    OrderedHasNoDuplicates(score, ids);
    AheadEarnsMore(bm25, ids[i], ids[j]);
    AheadEarnsMore(dense, ids[i], ids[j]);
    assert !Before(score, ids[j], ids[i]);
  }

  lemma CreditAtMost(ranked: seq<int>, doc: int)
    requires NoDuplicates(ranked)
    ensures doc !in ranked ==> Credits(ranked, |ranked|, doc) == 0.0
    ensures doc in ranked ==> Credits(ranked, |ranked|, doc) <= 1.0 / 61.0
    ensures doc in ranked ==> (Credits(ranked, |ranked|, doc) == 1.0 / 61.0 <==> ranked[0] == doc)
  {
    if doc in ranked {
      var k :| 0 <= k < |ranked| && ranked[k] == doc;
      CreditAfter(ranked, doc, k, |ranked|);
      if k > 0 {
        Reciprocal(61, RRF_K + k + 1);
      }
    } else {
      assert ranked[..|ranked|] == ranked;
      NoCredit(ranked, |ranked|, doc);
    }
  }

  lemma CreditAtLeast(ranked: seq<int>, doc: int, k: nat)
    requires NoDuplicates(ranked) && k < |ranked| && k < 62 && ranked[k] == doc
    ensures Credits(ranked, |ranked|, doc) >= 1.0 / 122.0
    ensures Credits(ranked, |ranked|, doc) == 1.0 / 122.0 <==> k == 61
  {
    CreditAfter(ranked, doc, k, |ranked|);
    if k < 61 {
      Reciprocal(RRF_K + k + 1, 122);
    }
  }

  /**
   The fused score decides between both rankings and one: a document among the first 62 of both precedes every document
   that only one ranking holds. The only exception is a tie, rank 62 twice against rank 1 once, where the smaller
   document number comes first.
   */
  lemma BothPrecedeOne(bm25: seq<int>, dense: seq<int>, ids: seq<int>, i: nat, j: nat, a: nat, b: nat)
    requires IsFusion(bm25, dense, ids) && NoDuplicates(bm25) && NoDuplicates(dense)
    requires i < |ids| && j < |ids| && (ids[j] !in bm25 || ids[j] !in dense)
    requires a < 62 && a < |bm25| && bm25[a] == ids[i]
    requires b < 62 && b < |dense| && dense[b] == ids[i]
    ensures i < j <==> !(a == 61 && b == 61 && (bm25[0] == ids[j] || dense[0] == ids[j]) && ids[j] < ids[i])
  {
    var score, x, y := FusedScore(bm25, dense), ids[i], ids[j];
    OrderedHasNoDuplicates(score, ids);
    CreditAtLeast(bm25, x, a);
    CreditAtLeast(dense, x, b);
    CreditAtMost(bm25, y);
    CreditAtMost(dense, y);
    assert x in bm25 && x in dense;
    var tie := a == 61 && b == 61 && (bm25[0] == y || dense[0] == y);
    assert score(x) >= score(y) && (score(x) == score(y) <==> tie);
    assert Before(score, x, y) <==> !(tie && y < x);
    assert i < j ==> Before(score, x, y);
    assert j < i ==> Before(score, y, x);
  }

  // ----- Duplicate offers -----

  // The identity tuple of a product, its texts already trimmed and case-folded.
  datatype Offer = Offer(source: string, brand: string, category: string, currency: string, price: Option<int>,
      title: string)
  {
    // Own products are kept even when their offer repeats.
    predicate Own() { source == "mandateguard" }
  }

  type Catalog = int -> Offer

  function Identities(catalog: Catalog, ids: seq<int>): set<Offer> {
    set i | 0 <= i < |ids| :: catalog(ids[i])
  }

  // The outcome of deduplicate after the documents before n.
  function Kept(catalog: Catalog, ranking: seq<int>, n: nat): seq<int>
    requires n <= |ranking|
  {
    if n == 0 then []
    else
      var before := Kept(catalog, ranking, n - 1);
      var p := catalog(ranking[n - 1]);
      if !p.Own() && p in Identities(catalog, before) then before else before + [ranking[n - 1]]
  }

  // No kept offer from outside repeats the identity of a better kept one.
  predicate NoRepeats(catalog: Catalog, ids: seq<int>) {
    forall i, j :: 0 <= i < j < |ids| && !catalog(ids[j]).Own() ==> catalog(ids[i]) != catalog(ids[j])
  }

  // at gives the position in the ranking of each kept document.
  predicate IsSubsequence(ids: seq<int>, ranking: seq<int>, at: seq<nat>) {
    && |at| == |ids|
    && (forall k :: 0 <= k < |at| ==> at[k] < |ranking| && ranking[at[k]] == ids[k])
    && (forall k, l :: 0 <= k < l < |at| ==> at[k] < at[l])
  }

  // The kept positions all lie before n.
  predicate Within(at: seq<nat>, n: nat) {
    forall k :: 0 <= k < |at| ==> at[k] < n
  }

  lemma SubsequenceGrows(ids: seq<int>, ranking: seq<int>, at: seq<nat>, n: nat)
    requires IsSubsequence(ids, ranking, at) && Within(at, n) && n < |ranking|
    ensures IsSubsequence(ids + [ranking[n]], ranking, at + [n]) && Within(at + [n], n + 1)
  {
  }

  /** Every offer seen is kept, itself or as an earlier equal. */
  lemma {:induction false} KeptCoversSeen(catalog: Catalog, ranking: seq<int>, n: nat, i: nat)
    requires i < n <= |ranking|
    ensures catalog(ranking[i]) in Identities(catalog, Kept(catalog, ranking, n))
  {
    var before, kept := Kept(catalog, ranking, n - 1), Kept(catalog, ranking, n);
    if i < n - 1 {
      KeptCoversSeen(catalog, ranking, n - 1, i);
      var k :| 0 <= k < |before| && catalog(before[k]) == catalog(ranking[i]);
      assert kept[k] == before[k];
    } else if kept != before {
      assert kept[|before|] == ranking[i];
    }
  }

  lemma KeptNext(catalog: Catalog, ranking: seq<int>, n: nat, chosen: seq<int>, identities: set<Offer>)
    requires n < |ranking| && chosen == Kept(catalog, ranking, n) && identities == Identities(catalog, chosen)
    ensures Kept(catalog, ranking, n + 1)
            == if catalog(ranking[n]).Own() || catalog(ranking[n]) !in identities then chosen + [ranking[n]] else chosen
  {
  }

  // One more document in the working state, if it is kept.
  lemma KeepsState(catalog: Catalog, chosen: seq<int>, ranking: seq<int>, at: seq<nat>, n: nat)
    requires n < |ranking| && NoRepeats(catalog, chosen) && IsSubsequence(chosen, ranking, at) && Within(at, n)
    requires catalog(ranking[n]).Own() || catalog(ranking[n]) !in Identities(catalog, chosen)
    ensures NoRepeats(catalog, chosen + [ranking[n]])
    ensures Identities(catalog, chosen + [ranking[n]]) == Identities(catalog, chosen) + {catalog(ranking[n])}
    ensures IsSubsequence(chosen + [ranking[n]], ranking, at + [n]) && Within(at + [n], n + 1)
  {
    KeepingOne(catalog, chosen, ranking[n]);
    SubsequenceGrows(chosen, ranking, at, n);
  }

  /** deduplicate: keeps a subsequence without repeated offers, and drops only repeats until the limit is met. */
  method Deduplicate(catalog: Catalog, ranking: seq<int>, limit: int)
    returns (chosen: seq<int>, ghost at: seq<nat>, ghost seen: nat)
    ensures seen <= |ranking| && chosen == Kept(catalog, ranking, seen)
    ensures NoRepeats(catalog, chosen) && IsSubsequence(chosen, ranking, at)
    ensures seen < |ranking| ==> |chosen| == if limit < 1 then 1 else limit
    ensures |chosen| <= if limit < 1 then 1 else limit
  {
    chosen, at, seen := [], [], 0;
    var identities: set<Offer> := {};
    for i := 0 to |ranking|
      invariant chosen == Kept(catalog, ranking, i) && seen == i
      invariant identities == Identities(catalog, chosen)
      invariant NoRepeats(catalog, chosen)
      invariant IsSubsequence(chosen, ranking, at) && Within(at, i)
      invariant |chosen| < if limit < 1 then 1 else limit
    {
      var product := catalog(ranking[i]);
      KeptNext(catalog, ranking, i, chosen, identities);
      seen := i + 1;
      if product.Own() || product !in identities {
        KeepsState(catalog, chosen, ranking, at, i);
        identities := identities + {product};
        chosen := chosen + [ranking[i]];
        at := at + [i];
        if |chosen| >= limit {
          break;
        }
      }
    }
  }

  lemma KeepingOne(catalog: Catalog, chosen: seq<int>, doc: int)
    requires NoRepeats(catalog, chosen)
    requires catalog(doc).Own() || catalog(doc) !in Identities(catalog, chosen)
    ensures NoRepeats(catalog, chosen + [doc])
    ensures Identities(catalog, chosen + [doc]) == Identities(catalog, chosen) + {catalog(doc)}
  {
    var grown := chosen + [doc];
    assert grown[|chosen|] == doc;
    forall i | 0 <= i < |chosen| ensures catalog(chosen[i]) in Identities(catalog, grown) {
      assert grown[i] == chosen[i];
    }
    forall id | id in Identities(catalog, grown) ensures id in Identities(catalog, chosen) + {catalog(doc)} {
      var i :| 0 <= i < |grown| && catalog(grown[i]) == id;
      if i < |chosen| {
        assert chosen[i] == grown[i];
      }
    }
  }

  /** A subsequence of a ranking without duplicates has none. */
  lemma SubsequenceKeepsDistinct(ids: seq<int>, ranking: seq<int>, at: seq<nat>)
    requires NoDuplicates(ranking) && IsSubsequence(ids, ranking, at)
    ensures NoDuplicates(ids)
  {
    forall i, j | 0 <= i < j < |ids| ensures ids[i] != ids[j] {
      assert at[i] < at[j] && ranking[at[i]] != ranking[at[j]];
    }
  }

  /** An own product is always kept, however often its offer is repeated. */
  lemma {:induction false} OwnIsKept(catalog: Catalog, ranking: seq<int>, n: nat, i: nat)
    requires i < n <= |ranking| && catalog(ranking[i]).source == "mandateguard"
    ensures ranking[i] in Kept(catalog, ranking, n)
  {
    if i < n - 1 {
      OwnIsKept(catalog, ranking, n - 1, i);
    }
  }

  /** An outside offer is kept exactly when no kept document before it has the same identity. */
  lemma OutsideKeptExactlyWhenNew(catalog: Catalog, ranking: seq<int>, n: nat)
    requires n < |ranking| && catalog(ranking[n]).source != "mandateguard"
    ensures var before := Kept(catalog, ranking, n);
            Kept(catalog, ranking, n + 1) ==
              if forall i :: 0 <= i < |before| ==> catalog(before[i]) != catalog(ranking[n]) then before + [ranking[n]]
              else before
  {
    var before := Kept(catalog, ranking, n);
    assert catalog(ranking[n]) in Identities(catalog, before) <==>
      exists i :: 0 <= i < |before| && catalog(before[i]) == catalog(ranking[n]);
  }
}
