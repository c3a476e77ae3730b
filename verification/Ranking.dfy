/** Rank-based evaluation of a scorer against labels: ROC AUC, recall at a false-positive rate. */
module Ranking {
  import opened Wrappers

  datatype Scored = Scored(score: real, positive: bool)

  // zip(scores, labels, strict=True)
  function Paired(scores: seq<real>, labels: seq<bool>): (zs: seq<Scored>)
    requires |scores| == |labels|
    ensures |zs| == |scores|
  {
    seq(|scores|, i requires 0 <= i < |scores| => Scored(scores[i], labels[i]))
  }

  predicate Ascending(zs: seq<Scored>) {
    forall i, j :: 0 <= i <= j < |zs| ==> zs[i].score <= zs[j].score
  }

  function Insert(z: Scored, zs: seq<Scored>): seq<Scored> {
    if zs == [] || z.score <= zs[0].score then [z] + zs else [zs[0]] + Insert(z, zs[1..])
  }

  // Python's stable sorted(..., key=score).
  function Sort(zs: seq<Scored>): seq<Scored> {
    if zs == [] then [] else Insert(zs[0], Sort(zs[1..]))
  }

  lemma {:induction false} InsertContents(z: Scored, zs: seq<Scored>)
    ensures multiset(Insert(z, zs)) == multiset(zs) + multiset{z}
  {
    if zs != [] && z.score > zs[0].score {
      assert zs == [zs[0]] + zs[1..];
      InsertContents(z, zs[1..]);
    }
  }

  lemma {:induction false} InsertSpec(z: Scored, zs: seq<Scored>)
    requires Ascending(zs)
    ensures Ascending(Insert(z, zs))
    ensures multiset(Insert(z, zs)) == multiset(zs) + multiset{z}
  {
    InsertContents(z, zs);
    if zs != [] && z.score > zs[0].score {
      var tail := zs[1..];
      InsertSpec(z, tail);
      var rest := Insert(z, tail);
      forall i | 0 <= i < |rest| ensures zs[0].score <= rest[i].score {
        assert rest[i] in multiset(rest);
        assert rest[i] in tail || rest[i] == z;
      }
    }
  }

  lemma {:induction false} SortSpec(zs: seq<Scored>)
    ensures Ascending(Sort(zs)) && multiset(Sort(zs)) == multiset(zs)
  {
    if zs != [] {
      SortSpec(zs[1..]);
      InsertSpec(zs[0], Sort(zs[1..]));
      assert zs == [zs[0]] + zs[1..];
    }
  }

  // ----- Sums that do not depend on order -----

  function Sum(f: Scored -> real, zs: seq<Scored>): real {
    if zs == [] then 0.0 else f(zs[0]) + Sum(f, zs[1..])
  }

  lemma {:induction false} SumAppend(f: Scored -> real, a: seq<Scored>, b: seq<Scored>)
    ensures Sum(f, a + b) == Sum(f, a) + Sum(f, b)
  {
    if a == [] {
      assert a + b == b;
    } else {
      assert (a + b)[1..] == a[1..] + b;
      SumAppend(f, a[1..], b);
    }
  }

  lemma {:induction false} SumConstant(f: Scored -> real, zs: seq<Scored>, c: real)
    requires forall i :: 0 <= i < |zs| ==> f(zs[i]) == c
    ensures Sum(f, zs) == c * |zs| as real
  {
    if zs != [] {
      SumConstant(f, zs[1..], c);
    }
  }

  lemma {:induction false} SumInsert(f: Scored -> real, z: Scored, zs: seq<Scored>)
    ensures Sum(f, Insert(z, zs)) == f(z) + Sum(f, zs)
  {
    if zs != [] && z.score > zs[0].score {
      SumInsert(f, z, zs[1..]);
      assert ([zs[0]] + Insert(z, zs[1..]))[1..] == Insert(z, zs[1..]);
    } else {
      assert ([z] + zs)[1..] == zs;
    }
  }

  /** Sorting keeps every sum. */
  lemma {:induction false} SumSort(f: Scored -> real, zs: seq<Scored>)
    ensures Sum(f, Sort(zs)) == Sum(f, zs)
  {
    if zs != [] {
      SumSort(f, zs[1..]);
      SumInsert(f, zs[0], Sort(zs[1..]));
    }
  }

  lemma {:induction false} SumsAgree(f: Scored -> real, g: Scored -> real, zs: seq<Scored>)
    requires forall i :: 0 <= i < |zs| ==> f(zs[i]) == g(zs[i])
    ensures Sum(f, zs) == Sum(g, zs)
  {
    if zs != [] {
      SumsAgree(f, g, zs[1..]);
    }
  }

  lemma {:induction false} SumOfSums(f: Scored -> real, g: Scored -> real, h: Scored -> real, zs: seq<Scored>)
    requires forall z :: h(z) == f(z) + g(z)
    ensures Sum(h, zs) == Sum(f, zs) + Sum(g, zs)
  {
    if zs != [] {
      SumOfSums(f, g, h, zs[1..]);
    }
  }

  lemma {:induction false} SumBounds(f: Scored -> real, g: Scored -> real, zs: seq<Scored>)
    requires forall z :: 0.0 <= f(z) <= g(z)
    ensures 0.0 <= Sum(f, zs) <= Sum(g, zs)
  {
    if zs != [] {
      SumBounds(f, g, zs[1..]);
    }
  }

  // ----- The pairwise definition -----

  // One for a win, half for a tie.
  function Win(a: Scored, b: Scored): real {
    if a.score > b.score then 1.0 else if a.score == b.score then 0.5 else 0.0
  }

  function One(side: bool): Scored -> real {
    (z: Scored) => if z.positive == side then 1.0 else 0.0
  }

  function Count(side: bool, zs: seq<Scored>): real {
    Sum(One(side), zs)
  }

  // What a wins from the positives or from the negatives.
  function WinAgainst(a: Scored, side: bool): Scored -> real {
    (z: Scored) => if z.positive == side then Win(a, z) else 0.0
  }

  function Wins(a: Scored, side: bool, zs: seq<Scored>): real {
    Sum(WinAgainst(a, side), zs)
  }

  function PositiveWins(side: bool, zs: seq<Scored>): Scored -> real {
    (z: Scored) => if z.positive then Wins(z, side, zs) else 0.0
  }

  // Wins plus half the ties over all pairs of a positive of xs and an element of zs on the side.
  function PairWins(xs: seq<Scored>, side: bool, zs: seq<Scored>): real {
    Sum(PositiveWins(side, zs), xs)
  }

  /** The area under the ROC curve, pair by pair; one half when a class is empty. */
  function PairwiseAuc(zs: seq<Scored>): real {
    AucOf(PairWins(zs, false, zs), Count(true, zs), Count(false, zs))
  }

  function AucOf(wins: real, positives: real, negatives: real): real {
    if positives == 0.0 || negatives == 0.0 then 0.5 else wins / (positives * negatives)
  }

  lemma PairWinsSort(xs: seq<Scored>, side: bool, zs: seq<Scored>)
    ensures PairWins(Sort(xs), side, Sort(zs)) == PairWins(xs, side, zs)
  {
    forall x: Scored ensures Wins(x, side, Sort(zs)) == Wins(x, side, zs) {
      SumSort(WinAgainst(x, side), zs);
    }
    SumsAgree(PositiveWins(side, Sort(zs)), PositiveWins(side, zs), Sort(xs));
    SumSort(PositiveWins(side, zs), xs);
  }

  lemma SortKeepsAuc(zs: seq<Scored>)
    ensures PairwiseAuc(Sort(zs)) == PairwiseAuc(zs)
    ensures Count(true, Sort(zs)) == Count(true, zs) && Count(false, Sort(zs)) == Count(false, zs)
  {
    SumSort(One(true), zs);
    SumSort(One(false), zs);
    PairWinsSort(zs, false, zs);
  }

  lemma {:induction false} CountIsWhole(side: bool, zs: seq<Scored>) returns (n: nat)
    ensures Count(side, zs) == n as real && n <= |zs|
  {
    n := 0;
    if zs != [] {
      n := CountIsWhole(side, zs[1..]);
      if zs[0].positive == side {
        n := n + 1;
      }
    }
  }

  // ----- Ranks -----

  // The tie-averaged rank of a among zs, from one.
  function Rank(a: Scored, zs: seq<Scored>): real {
    Wins(a, true, zs) + Wins(a, false, zs) + 0.5
  }

  function WinAny(a: Scored): Scored -> real {
    z => Win(a, z)
  }

  lemma RankIsWins(a: Scored, zs: seq<Scored>)
    ensures Rank(a, zs) == Sum(WinAny(a), zs) + 0.5
  {
    SumOfSums(WinAgainst(a, true), WinAgainst(a, false), WinAny(a), zs);
  }

  lemma SumRange(f: Scored -> real, zs: seq<Scored>, lo: nat, hi: nat, c: real)
    requires lo <= hi <= |zs| && forall i :: lo <= i < hi ==> f(zs[i]) == c
    ensures Sum(f, zs[lo..hi]) == c * (hi - lo) as real
  {
    var part := zs[lo..hi];
    forall i | 0 <= i < |part| ensures f(part[i]) == c {
      assert part[i] == zs[lo + i];
    }
    SumConstant(f, part, c);
  }

  lemma SumTwoParts(f: Scored -> real, zs: seq<Scored>, lo: nat, m: nat, hi: nat)
    requires lo <= m <= hi <= |zs|
    ensures Sum(f, zs[lo..hi]) == Sum(f, zs[lo..m]) + Sum(f, zs[m..hi])
  {
    assert zs[lo..hi] == zs[lo..m] + zs[m..hi];
    SumAppend(f, zs[lo..m], zs[m..hi]);
  }

  lemma SumThreeParts(f: Scored -> real, zs: seq<Scored>, a: nat, b: nat, x: real, y: real, z: real)
    requires a <= b <= |zs|
    requires Sum(f, zs[0..a]) == x && Sum(f, zs[a..b]) == y && Sum(f, zs[b..|zs|]) == z
    ensures Sum(f, zs) == x + y + z
  {
    SumTwoParts(f, zs, 0, a, |zs|);
    SumTwoParts(f, zs, a, b, |zs|);
    assert zs[0..|zs|] == zs;
  }

  // A maximal run of equal scores.
  predicate IsRun(zs: seq<Scored>, first: nat, last: nat) {
    && Ascending(zs) && first <= last < |zs| && zs[first].score == zs[last].score
    && (first > 0 ==> zs[first - 1].score < zs[first].score)
    && (last + 1 < |zs| ==> zs[last].score < zs[last + 1].score)
  }

  /** The members of a maximal run of equal scores all have the average of the run's positions. */
  lemma RunRank(zs: seq<Scored>, first: nat, last: nat, k: nat)
    requires IsRun(zs, first, last) && first <= k <= last
    ensures Rank(zs[k], zs) == (first + last) as real / 2.0 + 1.0
  {
    var f := WinAny(zs[k]);
    WinsBelow(zs, first, last, k);
    WinsWithin(zs, first, last, k);
    WinsAbove(zs, first, last, k);
    SumThreeParts(f, zs, first, last + 1, first as real, (last + 1 - first) as real / 2.0, 0.0);
    RankIsWins(zs[k], zs);
  }

  lemma WinsBelow(zs: seq<Scored>, first: nat, last: nat, k: nat)
    requires IsRun(zs, first, last) && first <= k <= last
    ensures Sum(WinAny(zs[k]), zs[0..first]) == first as real
  {
    RunWins(zs, first, last, k);
    SumRange(WinAny(zs[k]), zs, 0, first, 1.0);
  }

  lemma WinsWithin(zs: seq<Scored>, first: nat, last: nat, k: nat)
    requires IsRun(zs, first, last) && first <= k <= last
    ensures Sum(WinAny(zs[k]), zs[first..last + 1]) == (last + 1 - first) as real / 2.0
  {
    RunWins(zs, first, last, k);
    SumRange(WinAny(zs[k]), zs, first, last + 1, 0.5);
  }

  lemma WinsAbove(zs: seq<Scored>, first: nat, last: nat, k: nat)
    requires IsRun(zs, first, last) && first <= k <= last
    ensures Sum(WinAny(zs[k]), zs[last + 1..|zs|]) == 0.0
  {
    RunWins(zs, first, last, k);
    SumRange(WinAny(zs[k]), zs, last + 1, |zs|, 0.0);
  }

  lemma RunWins(zs: seq<Scored>, first: nat, last: nat, k: nat)
    requires IsRun(zs, first, last) && first <= k <= last
    ensures forall i :: 0 <= i < first ==> WinAny(zs[k])(zs[i]) == 1.0
    ensures forall i :: first <= i <= last ==> WinAny(zs[k])(zs[i]) == 0.5
    ensures forall i :: last < i < |zs| ==> WinAny(zs[k])(zs[i]) == 0.0
  {
    assert zs[first].score <= zs[k].score <= zs[last].score;
    forall i | 0 <= i < first ensures zs[i].score < zs[k].score {
      assert zs[i].score <= zs[first - 1].score;
    }
    forall i | first <= i <= last ensures zs[i].score == zs[k].score {
      assert zs[first].score <= zs[i].score <= zs[last].score;
    }
    forall i | last < i < |zs| ensures zs[i].score > zs[k].score {
      assert zs[last + 1].score <= zs[i].score;
    }
  }

  // ----- The rank sum counts the pairs -----

  function PositiveRank(zs: seq<Scored>): Scored -> real {
    (z: Scored) => if z.positive then Rank(z, zs) else 0.0
  }

  lemma {:induction false} RankSumSplits(xs: seq<Scored>, zs: seq<Scored>)
    ensures Sum(PositiveRank(zs), xs) == PairWins(xs, true, zs) + PairWins(xs, false, zs) + Count(true, xs) / 2.0
  {
    if xs != [] {
      RankSumSplits(xs[1..], zs);
    }
  }

  lemma {:induction false} PairWinsAddOne(xs: seq<Scored>, z: Scored, zs: seq<Scored>)
    ensures PairWins(xs, true, [z] + zs)
            == PairWins(xs, true, zs) + if z.positive then Count(true, xs) - Wins(z, true, xs) else 0.0
  {
    assert ([z] + zs)[1..] == zs;
    if xs != [] {
      PairWinsAddOne(xs[1..], z, zs);
      assert Wins(xs[0], true, [z] + zs) == WinAgainst(xs[0], true)(z) + Wins(xs[0], true, zs);
    }
  }

  /** Among themselves the positives win exactly half of their squared number. */
  lemma {:induction false} PositivesSplitEvenly(zs: seq<Scored>)
    ensures PairWins(zs, true, zs) == Count(true, zs) * Count(true, zs) / 2.0
  {
    if zs != [] {
      var z, tail := zs[0], zs[1..];
      assert zs == [z] + tail;
      PositivesSplitEvenly(tail);
      PairWinsAddOne(tail, z, tail);
      assert PairWins(zs, true, zs) == PositiveWins(true, zs)(z) + PairWins(tail, true, zs);
      assert Wins(z, true, zs) == WinAgainst(z, true)(z) + Wins(z, true, tail);
      var n := Count(true, tail);
      assert z.positive ==> Count(true, zs) == n + 1.0;
      Square(n);
    }
  }

  lemma Square(n: real)
    ensures (n + 1.0) * (n + 1.0) / 2.0 == n * n / 2.0 + n + 0.5
  {
  }

  /** The rank sum of the positives, less its least value, counts wins plus half the ties. */
  lemma RankSumCountsPairs(zs: seq<Scored>)
    ensures var p := Count(true, zs);
            Sum(PositiveRank(zs), zs) - p * (p + 1.0) / 2.0 == PairWins(zs, false, zs)
  {
    var p := Count(true, zs);
    RankSumSplits(zs, zs);
    PositivesSplitEvenly(zs);
    assert p * (p + 1.0) / 2.0 == p * p / 2.0 + p / 2.0;
  }

  // ----- The program -----

  // The nested loops that give every position of a run the run's average rank.
  method AverageRanks(paired: seq<Scored>) returns (ranks: array<real>)
    requires Ascending(paired)
    ensures fresh(ranks) && ranks.Length == |paired|
    ensures forall k :: 0 <= k < |paired| ==> ranks[k] == Rank(paired[k], paired)
  {
    ranks := new real[|paired|](_ => 0.0);
    var index := 0;
    while index < |paired|
      invariant 0 <= index <= |paired|
      invariant 0 < index < |paired| ==> paired[index - 1].score < paired[index].score
      invariant forall k :: 0 <= k < index ==> ranks[k] == Rank(paired[k], paired)
    {
      var end := index;
      while end + 1 < |paired| && paired[end + 1].score == paired[index].score
        invariant index <= end < |paired|
        invariant paired[end].score == paired[index].score
      {
        end := end + 1;
      }
      var average := (index + end) as real / 2.0 + 1.0;
      for position := index to end + 1
        invariant forall k :: 0 <= k < index ==> ranks[k] == Rank(paired[k], paired)
        invariant forall k :: index <= k < position ==> ranks[k] == average
      {
        ranks[position] := average;
      }
      forall k | index <= k <= end ensures Rank(paired[k], paired) == average {
        RunRank(paired, index, end, k);
      }
      index := end + 1;
    }
  }

  // The number of positives and the sum of their ranks.
  method RankSum(paired: seq<Scored>, ranks: array<real>) returns (positives: nat, rankSum: real)
    requires ranks.Length == |paired| && forall k :: 0 <= k < |paired| ==> ranks[k] == Rank(paired[k], paired)
    ensures positives as real == Count(true, paired) && positives <= |paired|
    ensures rankSum == Sum(PositiveRank(paired), paired)
  {
    positives, rankSum := 0, 0.0;
    for i := 0 to |paired|
      invariant positives as real == Count(true, paired[..i]) && positives <= i
      invariant rankSum == Sum(PositiveRank(paired), paired[..i])
    {
      SumGrows(One(true), paired, i);
      SumGrows(PositiveRank(paired), paired, i);
      if paired[i].positive {
        positives := positives + 1;
        rankSum := rankSum + ranks[i];
      }
    }
    assert paired[..|paired|] == paired;
  }

  lemma SumGrows(f: Scored -> real, zs: seq<Scored>, i: nat)
    requires i < |zs|
    ensures Sum(f, zs[..i + 1]) == Sum(f, zs[..i]) + f(zs[i])
  {
    assert zs[..i + 1] == zs[..i] + [zs[i]];
    SumAppend(f, zs[..i], [zs[i]]);
    assert Sum(f, [zs[i]]) == f(zs[i]);
  }

  lemma AucFromRankSum(zs: seq<Scored>, positives: nat, negatives: nat, rankSum: real)
    requires positives as real == Count(true, zs) && negatives as real == Count(false, zs)
    requires rankSum == Sum(PositiveRank(zs), zs) && positives > 0 && negatives > 0
    ensures (rankSum - positives as real * (positives as real + 1.0) / 2.0) / (positives as real * negatives as real)
            == PairwiseAuc(zs)
  {
    RankSumCountsPairs(zs);
  }

  /** _roc_auc: the rank sum over sorted pairs is the pairwise definition on the caller's order. */
  method RocAuc(scores: seq<real>, labels: seq<bool>) returns (auc: real)
    requires |scores| == |labels|
    ensures auc == PairwiseAuc(Paired(scores, labels))
  {
    var paired := Sort(Paired(scores, labels));
    SortSpec(Paired(scores, labels));
    SortKeepsAuc(Paired(scores, labels));
    var ranks := AverageRanks(paired);
    var positives, rankSum := RankSum(paired, ranks);
    LabelsPartition(paired);
    var negatives := |paired| - positives;
    if positives == 0 || negatives == 0 {
      return 0.5;
    }
    AucFromRankSum(paired, positives, negatives, rankSum);
    return (rankSum - positives as real * (positives as real + 1.0) / 2.0) / (positives as real * negatives as real);
  }

  lemma {:induction false} LabelsPartition(zs: seq<Scored>)
    ensures Count(true, zs) + Count(false, zs) == |zs| as real
    ensures Count(true, zs) >= 0.0 && Count(false, zs) >= 0.0
  {
    if zs != [] {
      LabelsPartition(zs[1..]);
    }
  }

  // ----- What the definition gives -----

  lemma WinsAtMostCount(a: Scored, zs: seq<Scored>)
    ensures 0.0 <= Wins(a, false, zs) <= Count(false, zs)
  {
    SumBounds(WinAgainst(a, false), One(false), zs);
  }

  lemma {:induction false} PairWinsBounds(xs: seq<Scored>, zs: seq<Scored>)
    ensures 0.0 <= PairWins(xs, false, zs) <= Count(true, xs) * Count(false, zs)
  {
    if xs != [] {
      PairWinsBounds(xs[1..], zs);
      WinsAtMostCount(xs[0], zs);
    }
  }

  /** AUC is a probability. */
  lemma AucIsInUnitInterval(zs: seq<Scored>)
    ensures 0.0 <= PairwiseAuc(zs) <= 1.0
  {
    PairWinsBounds(zs, zs);
    LabelsPartition(zs);
    AucOfBounds(PairWins(zs, false, zs), Count(true, zs), Count(false, zs));
  }

  lemma AucOfBounds(wins: real, positives: real, negatives: real)
    requires positives >= 0.0 && negatives >= 0.0 && 0.0 <= wins <= positives * negatives
    ensures 0.0 <= AucOf(wins, positives, negatives) <= 1.0
  {
    if positives != 0.0 && negatives != 0.0 {
      FractionBounds(wins, positives * negatives);
    }
  }

  lemma FractionBounds(a: real, b: real)
    requires 0.0 <= a <= b && b > 0.0
    ensures 0.0 <= a / b <= 1.0
  {
  }

  function Negated(zs: seq<Scored>): (r: seq<Scored>)
    ensures |r| == |zs|
  {
    if zs == [] then [] else [Scored(-zs[0].score, zs[0].positive)] + Negated(zs[1..])
  }

  lemma {:induction false} NegatedCount(side: bool, zs: seq<Scored>)
    ensures Count(side, Negated(zs)) == Count(side, zs)
  {
    if zs != [] {
      NegatedCount(side, zs[1..]);
    }
  }

  lemma {:induction false} NegatedWins(a: Scored, zs: seq<Scored>)
    ensures Wins(Scored(-a.score, a.positive), false, Negated(zs)) == Count(false, zs) - Wins(a, false, zs)
  {
    if zs != [] {
      NegatedWins(a, zs[1..]);
    }
  }

  lemma {:induction false} NegatedPairWins(xs: seq<Scored>, zs: seq<Scored>)
    ensures PairWins(Negated(xs), false, Negated(zs)) == Count(true, xs) * Count(false, zs) - PairWins(xs, false, zs)
  {
    if xs != [] {
      NegatedPairWins(xs[1..], zs);
      NegatedWins(xs[0], zs);
      assert Negated(xs)[1..] == Negated(xs[1..]);
      var n := Count(false, zs);
      assert xs[0].positive ==> Count(true, xs) * n == Count(true, xs[1..]) * n + n;
    }
  }

  /** Negating every score turns the curve over. */
  lemma NegatingComplementsAuc(zs: seq<Scored>)
    ensures PairwiseAuc(Negated(zs)) == 1.0 - PairwiseAuc(zs)
  {
    NegatedCount(true, zs);
    NegatedCount(false, zs);
    NegatedPairWins(zs, zs);
    AucOfComplement(PairWins(zs, false, zs), Count(true, zs), Count(false, zs));
  }

  lemma AucOfComplement(wins: real, positives: real, negatives: real)
    ensures AucOf(positives * negatives - wins, positives, negatives) == 1.0 - AucOf(wins, positives, negatives)
  {
    if positives != 0.0 && negatives != 0.0 {
      assert positives * negatives != 0.0;
      ComplementFraction(wins, positives * negatives);
    }
  }

  lemma Quotient(x: real, n: real, q: real)
    requires n != 0.0 && q * n == x
    ensures x / n == q
  {
    assert (x / n - q) * n == 0.0;
  }

  lemma ComplementFraction(a: real, n: real)
    requires n != 0.0
    ensures (n - a) / n == 1.0 - a / n
  {
    var q := a / n;
    assert q * n == a;
    assert (1.0 - q) * n == n - a;
    Quotient(n - a, n, 1.0 - q);
  }

  // ----- Recall at a bounded false-positive rate -----

  function OnSide(side: bool, zs: seq<Scored>): (r: seq<Scored>) {
    if zs == [] then [] else (if zs[0].positive == side then [zs[0]] else []) + OnSide(side, zs[1..])
  }

  function IsAbove(t: real): Scored -> real {
    (z: Scored) => if z.score > t then 1.0 else 0.0
  }

  // How many of zs score strictly above t.
  function Above(t: real, zs: seq<Scored>): real {
    Sum(IsAbove(t), zs)
  }

  // The score of the k-th greatest, counting from zero.
  function FromTop(zs: seq<Scored>, k: nat): real
    requires k < |zs|
  {
    assert |Sort(zs)| == |zs| by {
      SortSpec(zs);
      assert |multiset(Sort(zs))| == |multiset(zs)|;
    }
    Sort(zs)[|zs| - 1 - k].score
  }

  lemma {:induction false} SumZeroOne(f: Scored -> real, zs: seq<Scored>)
    requires forall z :: f(z) == 0.0 || f(z) == 1.0
    ensures 0.0 <= Sum(f, zs) <= |zs| as real
  {
    if zs != [] {
      SumZeroOne(f, zs[1..]);
    }
  }

  lemma AboveOwnPosition(zs: seq<Scored>, m: nat)
    requires Ascending(zs) && m < |zs|
    ensures Above(zs[m].score, zs) <= (|zs| - 1 - m) as real
  {
    var f := IsAbove(zs[m].score);
    SumTwoParts(f, zs, 0, m + 1, |zs|);
    SumRange(f, zs, 0, m + 1, 0.0);
    SumZeroOne(f, zs[m + 1..|zs|]);
    assert zs[0..|zs|] == zs;
  }

  lemma AboveLowerScore(zs: seq<Scored>, m: nat, t: real)
    requires Ascending(zs) && m < |zs| && t < zs[m].score
    ensures Above(t, zs) >= (|zs| - m) as real
  {
    var f := IsAbove(t);
    SumTwoParts(f, zs, 0, m, |zs|);
    SumZeroOne(f, zs[0..m]);
    SumRange(f, zs, m, |zs|, 1.0);
    assert zs[0..|zs|] == zs;
  }

  /** At most k elements are above the k-th greatest, and more than k are above anything less. */
  lemma KthGreatestSeparates(zs: seq<Scored>, k: nat, t: real)
    requires k < |zs|
    ensures Above(FromTop(zs, k), zs) <= k as real
    ensures t < FromTop(zs, k) ==> Above(t, zs) >= k as real + 1.0
  {
    SortSpec(zs);
    assert |multiset(Sort(zs))| == |multiset(zs)|;
    SumSort(IsAbove(FromTop(zs, k)), zs);
    SumSort(IsAbove(t), zs);
    AboveOwnPosition(Sort(zs), |zs| - 1 - k);
    if t < FromTop(zs, k) {
      AboveLowerScore(Sort(zs), |zs| - 1 - k, t);
    }
  }

  function Recall(t: real, zs: seq<Scored>): real {
    if OnSide(true, zs) == [] then 0.0 else Above(t, OnSide(true, zs)) / |OnSide(true, zs)| as real
  }

  // The index the program reads in the negatives sorted downwards.
  function AllowedIndex(negatives: nat, target: real): (k: nat)
    requires negatives > 0 && target >= 0.0
    ensures k < negatives
  {
    var allowed := (negatives as real * target).Floor;
    if allowed < negatives - 1 then allowed else negatives - 1
  }

  // The negative score the program takes as its threshold.
  function ThresholdRead(zs: seq<Scored>, target: real): real
    requires OnSide(false, zs) != [] && target >= 0.0
  {
    FromTop(OnSide(false, zs), AllowedIndex(|OnSide(false, zs)|, target))
  }

  function RecallRead(zs: seq<Scored>, target: real): real
    requires target >= 0.0
  {
    if OnSide(false, zs) == [] then 0.0 else Recall(ThresholdRead(zs, target), zs)
  }

  /** _recall_at_fpr, for a target that is not negative. */
  method RecallAtFpr(scores: seq<real>, labels: seq<bool>, target: real) returns (recall: real)
    requires |scores| == |labels| && target >= 0.0
    ensures recall == RecallRead(Paired(scores, labels), target)
  {
    var zs := Paired(scores, labels);
    var negatives := OnSide(false, zs);
    if negatives == [] {
      return 0.0;
    }
    var threshold := ThresholdRead(zs, target);
    var positives := OnSide(true, zs);
    if positives == [] {
      return 0.0;
    }
    var found := 0;
    for i := 0 to |positives|
      invariant found as real == Above(threshold, positives[..i])
    {
      SumGrows(IsAbove(threshold), positives, i);
      if positives[i].score > threshold {
        found := found + 1;
      }
    }
    assert positives[..|positives|] == positives;
    return found as real / |positives| as real;
  }

  lemma {:induction false} AboveIsAntitone(s: real, t: real, zs: seq<Scored>)
    requires s <= t
    ensures Above(t, zs) <= Above(s, zs)
  {
    if zs != [] {
      AboveIsAntitone(s, t, zs[1..]);
    }
  }

  lemma Divide(a: real, b: real, n: real)
    requires a <= b && n > 0.0
    ensures a / n <= b / n
  {
  }

  lemma IndexIsFloor(n: nat, target: real)
    requires n > 0 && 0.0 <= target < 1.0
    ensures var k := AllowedIndex(n, target); k < n && k as real <= n as real * target < k as real + 1.0
  {
    var limit := n as real * target;
    assert n as real * (1.0 - target) > 0.0;
    assert limit == n as real - n as real * (1.0 - target);
    assert limit.Floor as real <= limit;
  }

  lemma RecallIsAntitone(s: real, t: real, zs: seq<Scored>)
    requires s <= t
    ensures Recall(t, zs) <= Recall(s, zs)
  {
    var positives := OnSide(true, zs);
    AboveIsAntitone(s, t, positives);
    if positives != [] {
      Divide(Above(t, positives), Above(s, positives), |positives| as real);
    }
  }

  lemma BestThreshold(zs: seq<Scored>, k: nat, limit: real, t: real)
    requires k < |OnSide(false, zs)| && k as real <= limit < k as real + 1.0
    ensures var negatives := OnSide(false, zs); var s := FromTop(negatives, k);
            && Above(s, negatives) <= limit
            && (Above(t, negatives) <= limit ==> Recall(t, zs) <= Recall(s, zs))
  {
    var negatives := OnSide(false, zs);
    KthGreatestSeparates(negatives, k, t);
    if FromTop(negatives, k) <= t {
      RecallIsAntitone(FromTop(negatives, k), t, zs);
    }
  }

  /**
   Below a target of one, the threshold read keeps the false positives within the target's share of the
   negatives, and no other threshold that does so finds more positives.
   */
  lemma RecallIsBestWithinTarget(zs: seq<Scored>, target: real, k: nat, limit: real, t: real)
    requires OnSide(false, zs) != [] && 0.0 <= target < 1.0
    requires k == AllowedIndex(|OnSide(false, zs)|, target) && limit == |OnSide(false, zs)| as real * target
    ensures var negatives := OnSide(false, zs); var s := FromTop(negatives, k);
            && Above(s, negatives) <= limit
            && (Above(t, negatives) <= limit ==> Recall(t, zs) <= Recall(s, zs))
  {
    IndexIsFloor(|OnSide(false, zs)|, target);
    BestThreshold(zs, k, limit, t);
  }

  // ----- When the recall read is the best one -----

  /** Some threshold with at most limit false positives reaches the recall, and none reaches more. */
  ghost predicate IsBestRecall(recall: real, zs: seq<Scored>, limit: real) {
    && (exists t: real :: Within(t, zs, limit) && Recall(t, zs) == recall)
    && (forall t: real :: Within(t, zs, limit) ==> Recall(t, zs) <= recall)
  }

  predicate Within(t: real, zs: seq<Scored>, limit: real) {
    Above(t, OnSide(false, zs)) <= limit
  }

  predicate SomeBelow(score: real, zs: seq<Scored>) {
    exists j :: 0 <= j < |zs| && zs[j].score < score
  }

  // No positives; or some negatives, and either a target below one or every positive above the least negative.
  predicate TargetIsServed(zs: seq<Scored>, target: real) {
    var positives, negatives := OnSide(true, zs), OnSide(false, zs);
    || positives == []
    || (negatives != []
        && (target < 1.0 || forall i :: 0 <= i < |positives| ==> SomeBelow(positives[i].score, negatives)))
  }

  lemma LeastIsFromBottom(zs: seq<Scored>, score: real)
    requires zs != []
    ensures SomeBelow(score, zs) <==> FromTop(zs, |zs| - 1) < score
  {
    SortSpec(zs);
    var sorted := Sort(zs);
    assert |multiset(sorted)| == |multiset(zs)|;
    assert sorted[0] in multiset(zs);
    var j :| 0 <= j < |zs| && zs[j] == sorted[0];
    forall i | 0 <= i < |zs| ensures sorted[0].score <= zs[i].score {
      assert zs[i] in multiset(sorted);
    }
  }

  lemma GrowsByFactor(n: real, factor: real)
    requires n >= 0.0 && factor >= 1.0
    ensures n <= n * factor
  {
    assert n * (factor - 1.0) >= 0.0;
  }

  lemma FullIndexIsLast(n: nat, target: real)
    requires n > 0 && target >= 1.0
    ensures AllowedIndex(n, target) == n - 1
  {
    GrowsByFactor(n as real, target);
    assert (n as real * target).Floor >= n;
  }

  lemma FullTargetReadsLeast(zs: seq<Scored>, target: real)
    requires OnSide(false, zs) != [] && target >= 1.0
    ensures ThresholdRead(zs, target) == FromTop(OnSide(false, zs), |OnSide(false, zs)| - 1)
  {
    FullIndexIsLast(|OnSide(false, zs)|, target);
  }

  lemma FullLimitAllowsAny(zs: seq<Scored>, limit: real, t: real)
    requires |OnSide(false, zs)| as real <= limit
    ensures Within(t, zs, limit)
  {
    SumZeroOne(IsAbove(t), OnSide(false, zs));
  }

  // A threshold that admits an element another one excludes finds at least one more.
  lemma {:induction false} OneMoreAbove(s: real, t: real, zs: seq<Scored>, i: nat)
    requires i < |zs| && t < zs[i].score <= s
    ensures Above(t, zs) >= Above(s, zs) + 1.0
  {
    if i == 0 {
      AboveIsAntitone(t, s, zs[1..]);
    } else {
      OneMoreAbove(s, t, zs[1..], i - 1);
    }
  }

  lemma DivideStrictly(a: real, b: real, n: real)
    requires a < b && n > 0.0
    ensures a / n < b / n
  {
    assert (b - a) / n > 0.0;
  }

  lemma MissedPositiveCosts(s: real, zs: seq<Scored>, i: nat)
    requires i < |OnSide(true, zs)| && OnSide(true, zs)[i].score <= s
    ensures Recall(OnSide(true, zs)[i].score - 1.0, zs) > Recall(s, zs)
  {
    var positives := OnSide(true, zs);
    var t := positives[i].score - 1.0;
    OneMoreAbove(s, t, positives, i);
    DivideStrictly(Above(s, positives), Above(t, positives), |positives| as real);
  }

  lemma AllAboveIsFullRecall(s: real, zs: seq<Scored>, t: real)
    requires forall i :: 0 <= i < |OnSide(true, zs)| ==> OnSide(true, zs)[i].score > s
    ensures Recall(t, zs) <= Recall(s, zs)
  {
    var positives := OnSide(true, zs);
    if positives != [] {
      SumConstant(IsAbove(s), positives, 1.0);
      SumZeroOne(IsAbove(t), positives);
      Divide(Above(t, positives), Above(s, positives), |positives| as real);
    }
  }

  lemma FullTargetIsBest(zs: seq<Scored>, target: real, t: real)
    requires target >= 1.0 && OnSide(true, zs) != [] && TargetIsServed(zs, target)
    ensures OnSide(false, zs) != [] && Recall(t, zs) <= Recall(ThresholdRead(zs, target), zs)
  {
    var positives, s := OnSide(true, zs), ThresholdRead(zs, target);
    FullTargetReadsLeast(zs, target);
    forall i | 0 <= i < |positives| ensures positives[i].score > s {
      assert SomeBelow(positives[i].score, OnSide(false, zs));
      LeastIsFromBottom(OnSide(false, zs), positives[i].score);
    }
    AllAboveIsFullRecall(s, zs, t);
  }

  lemma NoneBetter(zs: seq<Scored>, s: real, limit: real)
    requires Within(s, zs, limit) && forall t: real :: Within(t, zs, limit) ==> Recall(t, zs) <= Recall(s, zs)
    ensures IsBestRecall(Recall(s, zs), zs, limit)
  {
  }

  lemma PartTargetIsServed(zs: seq<Scored>, target: real, limit: real)
    requires OnSide(false, zs) != [] && 0.0 <= target < 1.0 && limit == |OnSide(false, zs)| as real * target
    ensures IsBestRecall(RecallRead(zs, target), zs, limit)
  {
    var k, s := AllowedIndex(|OnSide(false, zs)|, target), ThresholdRead(zs, target);
    RecallIsBestWithinTarget(zs, target, k, limit, s);
    forall t: real | Within(t, zs, limit) ensures Recall(t, zs) <= Recall(s, zs) {
      RecallIsBestWithinTarget(zs, target, k, limit, t);
    }
    NoneBetter(zs, s, limit);
  }

  lemma FullTargetIsServed(zs: seq<Scored>, target: real, limit: real)
    requires target >= 1.0 && |OnSide(false, zs)| as real <= limit && OnSide(true, zs) != []
             && TargetIsServed(zs, target)
    ensures IsBestRecall(RecallRead(zs, target), zs, limit)
  {
    var s := ThresholdRead(zs, target);
    FullLimitAllowsAny(zs, limit, s);
    forall t: real ensures Recall(t, zs) <= Recall(s, zs) {
      FullTargetIsBest(zs, target, t);
    }
    NoneBetter(zs, s, limit);
  }

  lemma ServedIsBest(zs: seq<Scored>, target: real, limit: real)
    requires target >= 0.0 && limit == |OnSide(false, zs)| as real * target
    requires OnSide(true, zs) != [] && TargetIsServed(zs, target)
    ensures IsBestRecall(RecallRead(zs, target), zs, limit)
  {
    if target < 1.0 {
      PartTargetIsServed(zs, target, limit);
    } else {
      GrowsByFactor(|OnSide(false, zs)| as real, target);
      FullTargetIsServed(zs, target, limit);
    }
  }

  // A threshold that does better than the one read, where every threshold is within the limit.
  lemma BetterThreshold(zs: seq<Scored>, target: real) returns (t: real)
    requires target >= 0.0 && !TargetIsServed(zs, target)
    ensures OnSide(false, zs) == [] || target >= 1.0
    ensures Recall(t, zs) > RecallRead(zs, target)
  {
    var positives, negatives := OnSide(true, zs), OnSide(false, zs);
    if negatives == [] {
      var s := positives[0].score;
      MissedPositiveCosts(s, zs, 0);
      SumZeroOne(IsAbove(s), positives);
      Divide(0.0, Above(s, positives), |positives| as real);
      t := s - 1.0;
    } else {
      var i :| 0 <= i < |positives| && !SomeBelow(positives[i].score, negatives);
      LeastIsFromBottom(negatives, positives[i].score);
      FullTargetReadsLeast(zs, target);
      MissedPositiveCosts(ThresholdRead(zs, target), zs, i);
      t := positives[i].score - 1.0;
    }
  }

  lemma UnservedIsNotBest(zs: seq<Scored>, target: real, limit: real)
    requires target >= 0.0 && |OnSide(false, zs)| as real <= limit && !TargetIsServed(zs, target)
    ensures !IsBestRecall(RecallRead(zs, target), zs, limit)
  {
    var t := BetterThreshold(zs, target);
    FullLimitAllowsAny(zs, limit, t);
  }

  lemma LimitCoversAll(n: real, target: real, limit: real)
    requires n >= 0.0 && limit == n * target && (n == 0.0 || target >= 1.0)
    ensures n <= limit
  {
    if target >= 1.0 {
      GrowsByFactor(n, target);
    }
  }

  lemma {:induction false} NothingAbove(zs: seq<Scored>) returns (t: real)
    ensures Above(t, zs) == 0.0
  {
    t := 0.0;
    if zs != [] {
      var rest := NothingAbove(zs[1..]);
      t := if rest < zs[0].score then zs[0].score else rest;
      AboveIsAntitone(rest, t, zs[1..]);
      SumZeroOne(IsAbove(t), zs[1..]);
    }
  }

  /**
   The recall read is the best within the target exactly when there are no positives, or there are negatives and
   the target is below one or every positive scores above the least negative.
   */
  lemma RecallIsBestExactlyWhen(zs: seq<Scored>, target: real, limit: real)
    requires target >= 0.0 && limit == |OnSide(false, zs)| as real * target
    ensures IsBestRecall(RecallRead(zs, target), zs, limit) <==> TargetIsServed(zs, target)
  {
    if OnSide(true, zs) == [] {
      var t := NothingAbove(OnSide(false, zs));
      assert Within(t, zs, limit) && Recall(t, zs) == RecallRead(zs, target);
    } else if TargetIsServed(zs, target) {
      ServedIsBest(zs, target, limit);
    } else {
      LimitCoversAll(|OnSide(false, zs)| as real, target, limit);
      UnservedIsNotBest(zs, target, limit);
    }
  }

  /** Without negatives nothing is read, although any threshold would be free of false positives. */
  lemma NoNegativesMissPositives()
    ensures var zs := [Scored(1.0, true)];
            RecallRead(zs, 0.05) == 0.0 && Within(0.0, zs, 0.0) && Recall(0.0, zs) == 1.0
  {
    var p := Scored(1.0, true);
    assert [p][1..] == [];
    assert OnSide(true, [p]) == [p] && OnSide(false, [p]) == [];
    assert IsAbove(0.0)(p) == 1.0 && Sum(IsAbove(0.0), []) == 0.0;
    assert Above(0.0, [p]) == 1.0;
  }

  /** At a target of one the least negative is still excluded, so the best recall may be missed. */
  lemma FullTargetMayMissPositives()
    ensures var zs := [Scored(0.0, true), Scored(1.0, false)];
            && OnSide(false, zs) == [zs[1]] && AllowedIndex(1, 1.0) == 0
            && Recall(FromTop([zs[1]], 0), zs) == 0.0
            && Above(-1.0, [zs[1]]) <= 1.0 && Recall(-1.0, zs) == 1.0
  {
    var p, n := Scored(0.0, true), Scored(1.0, false);
    var zs := [p, n];
    assert zs[1..] == [n] && [n][1..] == [];
    assert OnSide(true, [n]) == [] && OnSide(false, [n]) == [n];
    assert OnSide(true, zs) == [p] && OnSide(false, zs) == [n];
    assert Sort([n]) == [n];
    assert [p][1..] == [];
    assert Above(1.0, [p]) == 0.0 && Above(-1.0, [p]) == 1.0 && Above(-1.0, [n]) == 1.0;
  }
}
