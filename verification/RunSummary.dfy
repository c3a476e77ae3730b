/** The mechanical tallies of a benchmark run: every breakdown partitions the same results. */
module RunSummary {
  import opened Wrappers
  import opened Strings

  // The keys of the summary's tables.
  datatype Keys = Keys(families: seq<string>, tiers: seq<string>, actions: seq<string>, tierA: seq<string>,
      tierB: seq<string>)

  const BENCHMARK_KEYS := Keys(
    ["A1", "A2", "A3", "A4", "A5", "A6", "A7", "A8", "B1", "B2", "B3", "B4", "B5", "B6", "B7", "B8", "B9", "B10"],
    ["A", "B"],
    ["ALLOW", "REVIEW", "BLOCK"],
    ["PASS", "FAIL", "NOT_EVALUABLE"],
    ["PASS", "FAIL"])

  datatype Observed = Observed(finalAction: string, familyStatus: string)

  // An errored case observed nothing.
  datatype CaseResult = CaseResult(
    caseId: string, family: string, tier: string, targetStatus: string, expectedAction: string,
    observed: Option<Observed>, latency: int)
  {
    predicate StatusMatch() { observed.Some? && observed.value.familyStatus == targetStatus }

    predicate ActionMatch() { observed.Some? && observed.value.finalAction == expectedAction }
  }

  datatype Tally = Tally(total: int, statusMatches: int, statusMismatches: int, actionMatches: int,
      actionMismatches: int, errors: int)

  function Zero(): Tally {
    Tally(0, 0, 0, 0, 0, 0)
  }

  function Plus(a: Tally, b: Tally): Tally {
    Tally(a.total + b.total, a.statusMatches + b.statusMatches, a.statusMismatches + b.statusMismatches,
          a.actionMatches + b.actionMatches, a.actionMismatches + b.actionMismatches, a.errors + b.errors)
  }

  function Bit(b: bool): int {
    if b then 1 else 0
  }

  function One(r: CaseResult): Tally {
    Tally(1, Bit(r.StatusMatch()), Bit(!r.StatusMatch()), Bit(r.ActionMatch()), Bit(!r.ActionMatch()),
        Bit(r.observed.None?))
  }

  type Selector = (CaseResult, string) -> bool

  // The tally of the results a selector puts under a key.
  function Bucket(results: seq<CaseResult>, select: Selector, key: string): Tally {
    if results == [] then Zero()
    else
      var last := results[|results| - 1];
      Plus(Bucket(results[..|results| - 1], select, key), if select(last, key) then One(last) else Zero())
  }

  type Buckets = string -> Tally

  function BucketsOf(results: seq<CaseResult>, select: Selector): Buckets {
    (k: string) => Bucket(results, select, k)
  }

  // The buckets of several keys together.
  function SumOver(buckets: Buckets, keys: seq<string>): Tally {
    SumOfFirst(buckets, keys, |keys|)
  }

  function SumOfFirst(buckets: Buckets, keys: seq<string>, n: nat): Tally
    requires n <= |keys|
  {
    if n == 0 then Zero() else Plus(SumOfFirst(buckets, keys, n - 1), buckets(keys[n - 1]))
  }

  // ----- Tables -----

  type Table = map<string, Tally>

  // The table holds one bucket per key.
  ghost predicate Holds(table: Table, buckets: Buckets, keys: seq<string>) {
    && (forall k :: k in table <==> k in keys)
    && (forall k :: k in table ==> table[k] == buckets(k))
  }

  // One bucket per key.
  function Tabulated(results: seq<CaseResult>, select: Selector, keys: seq<string>): Table {
    map k | k in keys :: Bucket(results, select, k)
  }

  ghost predicate Tabulates(table: Table, results: seq<CaseResult>, select: Selector, keys: seq<string>) {
    table == Tabulated(results, select, keys)
  }

  // The bucket of one key grows, and no other.
  function OneAt(key: Option<string>, one: Tally): Buckets {
    (k: string) => if Some(k) == key then one else Zero()
  }

  predicate GrowsAt(f: Buckets, g: Buckets, keys: seq<string>, i: nat, key: Option<string>, one: Tally) {
    i < |keys| && g(keys[i]) == Plus(f(keys[i]), OneAt(key, one)(keys[i]))
  }

  // One more result: its key's bucket, if it has one, grows by one.
  ghost predicate Grows(f: Buckets, g: Buckets, keys: seq<string>, key: Option<string>, one: Tally) {
    forall i :: 0 <= i < |keys| ==> GrowsAt(f, g, keys, i, key, one)
  }

  predicate SelectsAt(select: Selector, keys: seq<string>, i: nat, key: Option<string>, r: CaseResult) {
    i < |keys| && (select(r, keys[i]) <==> Some(keys[i]) == key)
  }

  // The result's only key among keys, if any.
  ghost predicate OnlyKey(select: Selector, keys: seq<string>, key: Option<string>, r: CaseResult) {
    forall i :: 0 <= i < |keys| ==> SelectsAt(select, keys, i, key, r)
  }

  lemma BucketGrows(results: seq<CaseResult>, r: CaseResult, select: Selector, key: string)
    ensures Bucket(results + [r], select, key)
            == Plus(Bucket(results, select, key), if select(r, key) then One(r) else Zero())
  {
    assert (results + [r])[..|results|] == results;
  }

  lemma BucketsGrow(results: seq<CaseResult>, r: CaseResult, select: Selector, keys: seq<string>, key: Option<string>)
    requires OnlyKey(select, keys, key, r)
    ensures Grows(BucketsOf(results, select), BucketsOf(results + [r], select), keys, key, One(r))
  {
    forall i | 0 <= i < |keys|
      ensures GrowsAt(BucketsOf(results, select), BucketsOf(results + [r], select), keys, i, key, One(r))
    {
      assert SelectsAt(select, keys, i, key, r);
      BucketGrows(results, r, select, keys[i]);
    }
  }

  // _tally on the bucket of one key.
  method Count(table: Table, key: string, r: CaseResult) returns (table': Table)
    requires key in table
    ensures table' == table[key := Plus(table[key], One(r))]
  {
    var bucket := table[key];
    bucket := bucket.(total := bucket.total + 1);
    if r.observed.None? {
      bucket := bucket.(errors := bucket.errors + 1);
    }
    if r.StatusMatch() {
      bucket := bucket.(statusMatches := bucket.statusMatches + 1);
    } else {
      bucket := bucket.(statusMismatches := bucket.statusMismatches + 1);
    }
    if r.ActionMatch() {
      bucket := bucket.(actionMatches := bucket.actionMatches + 1);
    } else {
      bucket := bucket.(actionMismatches := bucket.actionMismatches + 1);
    }
    table' := table[key := bucket];
  }

  lemma HeldAfterGrowth(table: Table, f: Buckets, g: Buckets, keys: seq<string>, key: Option<string>, one: Tally)
    requires Holds(table, f, keys) && Grows(f, g, keys, key, one) && (key.Some? ==> key.value in keys)
    ensures Holds(if key.None? then table else table[key.value := Plus(table[key.value], one)], g, keys)
  {
    forall k | k in keys ensures g(k) == Plus(f(k), OneAt(key, one)(k)) {
      var i :| 0 <= i < |keys| && keys[i] == k;
      assert GrowsAt(f, g, keys, i, key, one);
    }
  }

  // A result counted under its only key, or under none.
  lemma Counted(table: Table, results: seq<CaseResult>, r: CaseResult, select: Selector, keys: seq<string>,
                key: Option<string>)
    requires Tabulates(table, results, select, keys) && OnlyKey(select, keys, key, r)
             && (key.Some? ==> key.value in keys)
    ensures Tabulates(if key.None? then table else table[key.value := Plus(table[key.value], One(r))], results + [r],
            select, keys)
  {
    BucketsGrow(results, r, select, keys, key);
    HeldAfterGrowth(table, BucketsOf(results, select), BucketsOf(results + [r], select), keys, key, One(r));
  }

  function Empty(keys: seq<string>): Table {
    map k | k in keys :: Zero()
  }

  lemma EmptyTabulates(select: Selector, keys: seq<string>)
    ensures Tabulates(Empty(keys), [], select, keys)
  {
  }

  // ----- The summary -----

  function ByFamily(): Selector { (r: CaseResult, k: string) => r.family == k }

  function ByTier(): Selector { (r: CaseResult, k: string) => r.tier == k }

  function TierAByTarget(): Selector { (r: CaseResult, k: string) => r.tier == "A" && r.targetStatus == k }

  function TierBByTarget(): Selector { (r: CaseResult, k: string) => r.tier != "A" && r.targetStatus == k }

  function ByAction(): Selector { (r: CaseResult, k: string) => r.observed.Some? && r.observed.value.finalAction == k }

  function ByObservedStatus(): Selector {
    (r: CaseResult, k: string) => r.observed.Some? && r.observed.value.familyStatus == k
  }

  // Every result, whatever the key.
  function Everything(): Selector { (r: CaseResult, k: string) => true }

  datatype Tables = Tables(
    perFamily: Table, perTier: Table, tierAByTarget: Table, tierBByTarget: Table,
    actionCounts: Table, observedStatuses: Table)

  datatype Lists = Lists(errors: seq<string>, statusMismatched: seq<string>, actionMismatched: seq<string>,
      latencies: seq<int>)

  datatype Summary = Summary(tables: Tables, lists: Lists)

  // A result whose labels name existing buckets. What the result's own constructors check is required.
  predicate Registered(ks: Keys, r: CaseResult) {
    r.family in ks.families && (r.observed.Some? ==> r.observed.value.finalAction in ks.actions)
  }

  predicate Bucketed(ks: Keys, r: CaseResult) {
    r.tier in ks.tiers && (if r.tier == "A" then r.targetStatus in ks.tierA else r.targetStatus in ks.tierB)
  }

  // Result i names existing buckets.
  predicate BucketedAt(ks: Keys, results: seq<CaseResult>, i: nat) {
    i < |results| && Bucketed(ks, results[i])
  }

  predicate RegisteredAt(ks: Keys, results: seq<CaseResult>, i: nat) {
    i < |results| && Registered(ks, results[i])
  }

  function Errored(): CaseResult -> bool { (r: CaseResult) => r.observed.None? }

  function StatusMissed(): CaseResult -> bool { (r: CaseResult) => !r.StatusMatch() }

  function ActionMissed(): CaseResult -> bool { (r: CaseResult) => !r.ActionMatch() }

  function CaseIds(results: seq<CaseResult>, keep: CaseResult -> bool): seq<string> {
    if results == [] then []
    else
      var last := results[|results| - 1];
      CaseIds(results[..|results| - 1], keep) + if keep(last) then [last.caseId] else []
  }

  function Latencies(results: seq<CaseResult>): seq<int> {
    if results == [] then []
    else
      var last := results[|results| - 1];
      Latencies(results[..|results| - 1]) + if last.observed.Some? then [last.latency] else []
  }

  function TablesOf(ks: Keys, results: seq<CaseResult>): Tables {
    Tables(Tabulated(results, ByFamily(), ks.families), Tabulated(results, ByTier(), ks.tiers),
           Tabulated(results, TierAByTarget(), ks.tierA), Tabulated(results, TierBByTarget(), ks.tierB),
           Tabulated(results, ByAction(), ks.actions), Tabulated(results, ByObservedStatus(), ks.tierA))
  }

  function ListsOf(results: seq<CaseResult>): Lists {
    Lists(CaseIds(results, Errored()), CaseIds(results, StatusMissed()), CaseIds(results, ActionMissed()),
        Latencies(results))
  }

  /** Every table and list of the summary, each defined on its own over all results. */
  function SummaryOf(ks: Keys, results: seq<CaseResult>): Summary {
    Summary(TablesOf(ks, results), ListsOf(results))
  }

  ghost predicate TargetsHold(ks: Keys, tierA: Table, tierB: Table, results: seq<CaseResult>) {
    Tabulates(tierA, results, TierAByTarget(), ks.tierA) && Tabulates(tierB, results, TierBByTarget(), ks.tierB)
  }

  function EmptySummary(ks: Keys): Summary {
    Summary(
      Tables(Empty(ks.families), Empty(ks.tiers), Empty(ks.tierA), Empty(ks.tierB), Empty(ks.actions), Empty(ks.tierA)),
      Lists([], [], [], []))
  }

  lemma EmptySummarizes(ks: Keys)
    ensures EmptySummary(ks) == SummaryOf(ks, [])
  {
    EmptyTabulates(ByFamily(), ks.families);
    EmptyTabulates(ByTier(), ks.tiers);
    EmptyTabulates(TierAByTarget(), ks.tierA);
    EmptyTabulates(TierBByTarget(), ks.tierB);
    EmptyTabulates(ByAction(), ks.actions);
    EmptyTabulates(ByObservedStatus(), ks.tierA);
  }

  // The branch on the tier; None is the KeyError of a status without a bucket.
  method CountTarget(ks: Keys, tierA: Table, tierB: Table, ghost before: seq<CaseResult>, r: CaseResult)
    returns (targets: Option<(Table, Table)>)
    requires TargetsHold(ks, tierA, tierB, before)
    ensures targets.Some? <==> if r.tier == "A" then r.targetStatus in ks.tierA else r.targetStatus in ks.tierB
    ensures targets.Some? ==> TargetsHold(ks, targets.value.0, targets.value.1, before + [r])
  {
    if r.tier == "A" {
      if r.targetStatus !in tierA {
        return None;
      }
      var tierA' := Count(tierA, r.targetStatus, r);
      Counted(tierA, before, r, TierAByTarget(), ks.tierA, Some(r.targetStatus));
      Counted(tierB, before, r, TierBByTarget(), ks.tierB, None);
      return Some((tierA', tierB));
    }
    if r.targetStatus !in tierB {
      return None;
    }
    var tierB' := Count(tierB, r.targetStatus, r);
    Counted(tierA, before, r, TierAByTarget(), ks.tierA, None);
    Counted(tierB, before, r, TierBByTarget(), ks.tierB, Some(r.targetStatus));
    return Some((tierA, tierB'));
  }

  method CountAction(ks: Keys, table: Table, ghost before: seq<CaseResult>, r: CaseResult) returns (table': Table)
    requires Tabulates(table, before, ByAction(), ks.actions) && Registered(ks, r)
    ensures Tabulates(table', before + [r], ByAction(), ks.actions)
  {
    table' := table;
    if r.observed.Some? {
      table' := Count(table, r.observed.value.finalAction, r);
      Counted(table, before, r, ByAction(), ks.actions, Some(r.observed.value.finalAction));
    } else {
      Counted(table, before, r, ByAction(), ks.actions, None);
    }
  }

  // A status outside the table is passed over.
  method CountObservedStatus(ks: Keys, table: Table, ghost before: seq<CaseResult>, r: CaseResult)
    returns (table': Table)
    requires Tabulates(table, before, ByObservedStatus(), ks.tierA)
    ensures Tabulates(table', before + [r], ByObservedStatus(), ks.tierA)
  {
    table' := table;
    if r.observed.Some? && r.observed.value.familyStatus in table {
      table' := Count(table, r.observed.value.familyStatus, r);
      Counted(table, before, r, ByObservedStatus(), ks.tierA, Some(r.observed.value.familyStatus));
    } else {
      Counted(table, before, r, ByObservedStatus(), ks.tierA, None);
    }
  }

  // One turn of the loop over the tables; None is the KeyError of a label without a bucket.
  method CountInTables(ks: Keys, t: Tables, ghost before: seq<CaseResult>, r: CaseResult) returns (t': Option<Tables>)
    requires t == TablesOf(ks, before) && Registered(ks, r)
    ensures t'.Some? <==> Bucketed(ks, r)
    ensures t'.Some? ==> t'.value == TablesOf(ks, before + [r])
  {
    var perFamily := Count(t.perFamily, r.family, r);
    Counted(t.perFamily, before, r, ByFamily(), ks.families, Some(r.family));
    if r.tier !in t.perTier {
      return None;
    }
    var perTier := Count(t.perTier, r.tier, r);
    Counted(t.perTier, before, r, ByTier(), ks.tiers, Some(r.tier));
    var targets := CountTarget(ks, t.tierAByTarget, t.tierBByTarget, before, r);
    if targets.None? {
      return None;
    }
    var actions := CountAction(ks, t.actionCounts, before, r);
    var statuses := CountObservedStatus(ks, t.observedStatuses, before, r);
    return Some(Tables(perFamily, perTier, targets.value.0, targets.value.1, actions, statuses));
  }

  // The same turn over the lists.
  method CountInLists(l: Lists, ghost before: seq<CaseResult>, r: CaseResult) returns (l': Lists)
    requires l == ListsOf(before)
    ensures l' == ListsOf(before + [r])
  {
    assert (before + [r])[..|before|] == before;
    l' := l;
    if r.observed.None? {
      l' := l'.(errors := l.errors + [r.caseId]);
    } else {
      l' := l'.(latencies := l.latencies + [r.latency]);
    }
    if !r.StatusMatch() {
      l' := l'.(statusMismatched := l.statusMismatched + [r.caseId]);
    }
    if !r.ActionMatch() {
      l' := l'.(actionMismatched := l.actionMismatched + [r.caseId]);
    }
  }

  method CountOne(ks: Keys, s: Summary, ghost before: seq<CaseResult>, r: CaseResult) returns (s': Option<Summary>)
    requires s == SummaryOf(ks, before) && Registered(ks, r)
    ensures s'.Some? <==> Bucketed(ks, r)
    ensures s'.Some? ==> s'.value == SummaryOf(ks, before + [r])
  {
    var tables := CountInTables(ks, s.tables, before, r);
    if tables.None? {
      return None;
    }
    var lists := CountInLists(s.lists, before, r);
    return Some(Summary(tables.value, lists));
  }

  lemma AllBucketedGrows(ks: Keys, results: seq<CaseResult>, i: nat)
    requires i < |results|
    ensures AllBucketed(ks, results, i + 1) <==> AllBucketed(ks, results, i) && BucketedAt(ks, results, i)
  {
  }

  // The first n results name existing buckets.
  predicate AllBucketed(ks: Keys, results: seq<CaseResult>, n: nat) {
    forall i :: 0 <= i < n ==> BucketedAt(ks, results, i)
  }

  predicate AllRegistered(ks: Keys, results: seq<CaseResult>) {
    forall i :: 0 <= i < |results| ==> RegisteredAt(ks, results, i)
  }

  lemma RegisteredResult(ks: Keys, results: seq<CaseResult>, i: nat)
    requires AllRegistered(ks, results) && i < |results|
    ensures Registered(ks, results[i])
  {
    assert RegisteredAt(ks, results, i);
  }

  lemma UnbucketedResult(ks: Keys, results: seq<CaseResult>, i: nat)
    requires i < |results| && !Bucketed(ks, results[i])
    ensures !AllBucketed(ks, results, |results|)
  {
    assert !BucketedAt(ks, results, i);
  }

  /** The counting loop of build_run_summary: it fails exactly on a label without a bucket. */
  method BuildRunSummary(ks: Keys, results: seq<CaseResult>) returns (summary: Option<Summary>)
    requires AllRegistered(ks, results)
    ensures summary.Some? <==> AllBucketed(ks, results, |results|)
    ensures summary.Some? ==> summary.value == SummaryOf(ks, results)
  {
    EmptySummarizes(ks);
    var s := EmptySummary(ks);
    ghost var seen: seq<CaseResult> := [];
    for i := 0 to |results|
      invariant AllBucketed(ks, results, i)
      invariant seen == results[..i]
      invariant s == SummaryOf(ks, seen)
    {
      RegisteredResult(ks, results, i);
      var next := CountOne(ks, s, seen, results[i]);
      if next.None? {
        UnbucketedResult(ks, results, i);
        return None;
      }
      AllBucketedGrows(ks, results, i);
      seen := seen + [results[i]];
      s := next.value;
    }
    assert seen == results;
    return Some(s);
  }

  // ----- The breakdowns balance -----

  // Each result the scope admits falls under exactly one of the keys, and no other result does.
  ghost predicate Partitions(results: seq<CaseResult>, select: Selector, keys: seq<string>, scope: Selector,
                             name: string) {
    forall i :: 0 <= i < |results| ==> FallsOnce(results[i], select, keys, scope, name)
  }

  ghost predicate FallsOnce(r: CaseResult, select: Selector, keys: seq<string>, scope: Selector, name: string) {
    exists key ::
      OnlyKey(select, keys, key, r) && KeyInScope(r, keys, key, scope, name)
  }

  lemma {:induction false} SumOfNothing(f: Buckets, keys: seq<string>, n: nat)
    requires n <= |keys| && forall i :: 0 <= i < n ==> f(keys[i]) == Zero()
    ensures SumOfFirst(f, keys, n) == Zero()
  {
    if n > 0 {
      SumOfNothing(f, keys, n - 1);
    }
  }

  lemma PlusExchanges(a: Tally, x: Tally, b: Tally, y: Tally)
    ensures Plus(Plus(a, x), Plus(b, y)) == Plus(Plus(a, b), Plus(x, y))
  {
  }

  lemma {:induction false} SumGrows(f: Buckets, g: Buckets, h: Buckets, keys: seq<string>, n: nat)
    requires n <= |keys| && forall i :: 0 <= i < n ==> g(keys[i]) == Plus(f(keys[i]), h(keys[i]))
    ensures SumOfFirst(g, keys, n) == Plus(SumOfFirst(f, keys, n), SumOfFirst(h, keys, n))
  {
    if n > 0 {
      SumGrows(f, g, h, keys, n - 1);
      var k := keys[n - 1];
      PlusExchanges(SumOfFirst(f, keys, n - 1), SumOfFirst(h, keys, n - 1), f(k), h(k));
    }
  }

  // A key that stands at one place counts once.
  lemma {:induction false} OneKeyCounts(keys: seq<string>, j: nat, one: Tally, n: nat)
    requires j < n <= |keys| && forall i :: 0 <= i < |keys| && i != j ==> keys[i] != keys[j]
    ensures SumOfFirst(OneAt(Some(keys[j]), one), keys, n) == one
  {
    if j < n - 1 {
      OneKeyCounts(keys, j, one, n - 1);
    } else {
      SumOfNothing(OneAt(Some(keys[j]), one), keys, j);
    }
  }

  lemma KeyCounts(keys: seq<string>, key: Option<string>, one: Tally)
    requires Distinct(keys)
    ensures SumOver(OneAt(key, one), keys) == if key.Some? && key.value in keys then one else Zero()
  {
    if key.Some? && key.value in keys {
      var j :| 0 <= j < |keys| && keys[j] == key.value;
      OneKeyCounts(keys, j, one, |keys|);
    } else {
      SumOfNothing(OneAt(key, one), keys, |keys|);
    }
  }

  // The result's one key, if the scope admits it.
  predicate KeyInScope(r: CaseResult, keys: seq<string>, key: Option<string>, scope: Selector, name: string) {
    if scope(r, name) then key.Some? && key.value in keys else key.None?
  }

  lemma GrowthIsOneAt(f: Buckets, g: Buckets, keys: seq<string>, key: Option<string>, one: Tally)
    requires Grows(f, g, keys, key, one)
    ensures SumOver(g, keys) == Plus(SumOver(f, keys), SumOver(OneAt(key, one), keys))
  {
    forall i | 0 <= i < |keys| ensures g(keys[i]) == Plus(f(keys[i]), OneAt(key, one)(keys[i])) {
      assert GrowsAt(f, g, keys, i, key, one);
    }
    SumGrows(f, g, OneAt(key, one), keys, |keys|);
  }

  lemma OneMoreInPartition(before: seq<CaseResult>, r: CaseResult, select: Selector, keys: seq<string>,
                           key: Option<string>, scope: Selector, name: string)
    requires Distinct(keys) && OnlyKey(select, keys, key, r) && KeyInScope(r, keys, key, scope, name)
    ensures SumOver(BucketsOf(before + [r], select), keys)
         == Plus(SumOver(BucketsOf(before, select), keys), if scope(r, name) then One(r) else Zero())
  {
    var one := One(r);
    BucketsGrow(before, r, select, keys, key);
    GrowthIsOneAt(BucketsOf(before, select), BucketsOf(before + [r], select), keys, key, one);
    KeyCounts(keys, key, one);
  }

  // The buckets add up to the tally.
  predicate AddsUp(results: seq<CaseResult>, select: Selector, keys: seq<string>, scope: Selector, name: string) {
    SumOver(BucketsOf(results, select), keys) == Bucket(results, scope, name)
  }

  lemma OneMoreAddsUp(before: seq<CaseResult>, r: CaseResult, select: Selector, keys: seq<string>,
                      scope: Selector, name: string)
    requires Distinct(keys) && FallsOnce(r, select, keys, scope, name) && AddsUp(before, select, keys, scope, name)
    ensures AddsUp(before + [r], select, keys, scope, name)
  {
    var key :| OnlyKey(select, keys, key, r) && KeyInScope(r, keys, key, scope, name);
    OneMoreInPartition(before, r, select, keys, key, scope, name);
    BucketGrows(before, r, scope, name);
  }

  lemma NextResult(results: seq<CaseResult>, n: nat)
    requires n < |results|
    ensures results[..n + 1] == results[..n] + [results[n]]
  {
  }

  lemma {:induction false} FirstAddUp(results: seq<CaseResult>, n: nat, select: Selector, keys: seq<string>,
                                      scope: Selector, name: string)
    requires n <= |results| && Distinct(keys) && Partitions(results, select, keys, scope, name)
    ensures AddsUp(results[..n], select, keys, scope, name)
  {
    if n == 0 {
      SumOfNothing(BucketsOf(results[..n], select), keys, |keys|);
    } else {
      FirstAddUp(results, n - 1, select, keys, scope, name);
      OneMoreAddsUp(results[..n - 1], results[n - 1], select, keys, scope, name);
      NextResult(results, n - 1);
    }
  }

  /** The buckets of a partition add up, field by field, to the tally of what they partition. */
  lemma PartitionAddsUp(results: seq<CaseResult>, select: Selector, keys: seq<string>, scope: Selector, name: string)
    requires Distinct(keys) && Partitions(results, select, keys, scope, name)
    ensures SumOver(BucketsOf(results, select), keys) == Bucket(results, scope, name)
  {
    FirstAddUp(results, |results|, select, keys, scope, name);
    assert results[..|results|] == results;
  }

  lemma {:induction false} BucketBalances(results: seq<CaseResult>, select: Selector, key: string)
    ensures var b := Bucket(results, select, key);
            && b.statusMatches + b.statusMismatches == b.total == b.actionMatches + b.actionMismatches
            && b.errors <= b.statusMismatches && b.errors <= b.actionMismatches
  {
    if results != [] {
      BucketBalances(results[..|results| - 1], select, key);
    }
  }

  // The places of the results with a property.
  function Places(results: seq<CaseResult>, has: CaseResult -> bool): set<nat> {
    set i: nat | i < |results| && has(results[i])
  }

  lemma PlacesGrow(results: seq<CaseResult>, has: CaseResult -> bool)
    requires results != []
    ensures var n := |results| - 1;
            |Places(results, has)| == |Places(results[..n], has)| + if has(results[n]) then 1 else 0
  {
    var n := |results| - 1;
    var before := Places(results[..n], has);
    assert n !in before;
    assert forall i :: 0 <= i < n ==> results[..n][i] == results[i];
    assert Places(results, has) == before + if has(results[n]) then {n} else {};
  }

  lemma NoPlaces(has: CaseResult -> bool)
    ensures Places([], has) == {}
  {
  }

  // A count kept result by result is the number of places.
  lemma {:induction false} CountsPlaces(results: seq<CaseResult>, count: seq<CaseResult> -> int,
                                        has: CaseResult -> bool)
    requires count([]) == 0
    requires forall rs :: rs != [] ==>
               count(rs) == count(rs[..|rs| - 1]) + if has(rs[|rs| - 1]) then 1 else 0
    ensures count(results) == |Places(results, has)|
  {
    if results == [] {
      NoPlaces(has);
    } else {
      CountsPlaces(results[..|results| - 1], count, has);
      PlacesGrow(results, has);
    }
  }

  lemma BucketTotal(results: seq<CaseResult>, select: Selector, key: string, has: CaseResult -> bool)
    requires forall r :: select(r, key) == has(r)
    ensures Bucket(results, select, key).total == |Places(results, has)|
  {
    CountsPlaces(results, rs => Bucket(rs, select, key).total, has);
  }

  lemma BucketErrors(results: seq<CaseResult>, select: Selector, key: string, has: CaseResult -> bool)
    requires forall r :: has(r) <==> select(r, key) && r.observed == None
    ensures Bucket(results, select, key).errors == |Places(results, has)|
  {
    CountsPlaces(results, rs => Bucket(rs, select, key).errors, has);
  }

  lemma BucketStatusMatches(results: seq<CaseResult>, select: Selector, key: string, has: CaseResult -> bool)
    requires forall r :: has(r) <==>
               select(r, key) && r.observed.Some? && r.observed.value.familyStatus == r.targetStatus
    ensures Bucket(results, select, key).statusMatches == |Places(results, has)|
  {
    CountsPlaces(results, rs => Bucket(rs, select, key).statusMatches, has);
  }

  lemma BucketActionMatches(results: seq<CaseResult>, select: Selector, key: string, has: CaseResult -> bool)
    requires forall r :: has(r) <==>
               select(r, key) && r.observed.Some? && r.observed.value.finalAction == r.expectedAction
    ensures Bucket(results, select, key).actionMatches == |Places(results, has)|
  {
    CountsPlaces(results, rs => Bucket(rs, select, key).actionMatches, has);
  }

  /**
   What a bucket counts, case by case: the results under its key, those of them whose observed status is the target,
   whose observed action is the expected one, and that observed nothing.
   */
  lemma BucketCounts(results: seq<CaseResult>, select: Selector, key: string)
    ensures var b := Bucket(results, select, key);
            && b.total == |Places(results, r => select(r, key))|
            && b.errors == |Places(results, r => select(r, key) && r.observed == None)|
            && b.statusMatches == |Places(results, r =>
                 select(r, key) && r.observed.Some? && r.observed.value.familyStatus == r.targetStatus)|
            && b.actionMatches == |Places(results, r =>
                 select(r, key) && r.observed.Some? && r.observed.value.finalAction == r.expectedAction)|
            && b.statusMismatches == b.total - b.statusMatches && b.actionMismatches == b.total - b.actionMatches
  {
    BucketBalances(results, select, key);
    BucketTotal(results, select, key, r => select(r, key));
    BucketErrors(results, select, key, r => select(r, key) && r.observed == None);
    BucketStatusMatches(results, select, key,
        r => select(r, key) && r.observed.Some? && r.observed.value.familyStatus == r.targetStatus);
    BucketActionMatches(results, select, key,
        r => select(r, key) && r.observed.Some? && r.observed.value.finalAction == r.expectedAction);
  }

  /** The tables by family and by tier count the results of that family and of that tier. */
  lemma FamilyAndTierTables(ks: Keys, results: seq<CaseResult>, k: string)
    ensures var t := SummaryOf(ks, results).tables;
            && (k in t.perFamily <==> k in ks.families) && (k in t.perTier <==> k in ks.tiers)
            && (k in t.perFamily ==> t.perFamily[k].total == |Places(results, (r: CaseResult) => r.family == k)|)
            && (k in t.perTier ==> t.perTier[k].total == |Places(results, (r: CaseResult) => r.tier == k)|)
  {
    BucketTotal(results, ByFamily(), k, (r: CaseResult) => r.family == k);
    BucketTotal(results, ByTier(), k, (r: CaseResult) => r.tier == k);
  }

  /** The two target tables count the results of tier A, and those of any other tier, by target status. */
  lemma TargetTables(ks: Keys, results: seq<CaseResult>, k: string)
    ensures var t := SummaryOf(ks, results).tables;
            && (k in t.tierAByTarget <==> k in ks.tierA) && (k in t.tierBByTarget <==> k in ks.tierB)
            && (k in t.tierAByTarget ==>
                  t.tierAByTarget[k].total == |Places(results,
                      (r: CaseResult) => r.tier == "A" && r.targetStatus == k)|)
            && (k in t.tierBByTarget ==>
                  t.tierBByTarget[k].total == |Places(results,
                      (r: CaseResult) => r.tier != "A" && r.targetStatus == k)|)
  {
    BucketTotal(results, TierAByTarget(), k, (r: CaseResult) => r.tier == "A" && r.targetStatus == k);
    BucketTotal(results, TierBByTarget(), k, (r: CaseResult) => r.tier != "A" && r.targetStatus == k);
  }

  /** The tables of observations count the completed results by final action and by family status. */
  lemma ObservationTables(ks: Keys, results: seq<CaseResult>, k: string)
    ensures var t := SummaryOf(ks, results).tables;
            && (k in t.actionCounts <==> k in ks.actions) && (k in t.observedStatuses <==> k in ks.tierA)
            && (k in t.actionCounts ==>
                  t.actionCounts[k].total == |Places(results,
                      (r: CaseResult) => r.observed.Some? && r.observed.value.finalAction == k)|)
            && (k in t.observedStatuses ==>
                  t.observedStatuses[k].total == |Places(results,
                      (r: CaseResult) => r.observed.Some? && r.observed.value.familyStatus == k)|)
  {
    BucketTotal(results, ByAction(), k, (r: CaseResult) => r.observed.Some? && r.observed.value.finalAction == k);
    BucketTotal(results, ByObservedStatus(), k,
        (r: CaseResult) => r.observed.Some? && r.observed.value.familyStatus == k);
  }

  /**
   The lists of a longer run extend those of its beginning, and one result adds its case id where it errored, missed its
   status or missed its action, and its latency where it observed something.
   */
  lemma ListsExtend(ks: Keys, before: seq<CaseResult>, r: CaseResult)
    ensures var l, l' := SummaryOf(ks, before).lists, SummaryOf(ks, before + [r]).lists;
            && l'.errors == l.errors + (if r.observed == None then [r.caseId] else [])
            && l'.statusMismatched == l.statusMismatched
                 + (if r.observed.Some? && r.observed.value.familyStatus == r.targetStatus then [] else [r.caseId])
            && l'.actionMismatched == l.actionMismatched
                 + (if r.observed.Some? && r.observed.value.finalAction == r.expectedAction then [] else [r.caseId])
            && l'.latencies == l.latencies + (if r.observed.Some? then [r.latency] else [])
  {
    assert (before + [r])[..|before|] == before;
  }

  lemma {:induction false} ListsMatchTally(results: seq<CaseResult>)
    ensures var all := Bucket(results, Everything(), "");
            && all.total == |results|
            && all.errors == |CaseIds(results, Errored())|
            && all.statusMismatches == |CaseIds(results, StatusMissed())|
            && all.actionMismatches == |CaseIds(results, ActionMissed())|
            && |Latencies(results)| == |results| - all.errors
  {
    if results != [] {
      ListsMatchTally(results[..|results| - 1]);
    }
  }

  function Completed(): Selector { (r: CaseResult, k: string) => r.observed.Some? }

  lemma {:induction false} CompletedAreNotErrors(results: seq<CaseResult>)
    ensures Bucket(results, Completed(), "").total + Bucket(results, Everything(), "").errors == |results|
  {
    if results != [] {
      CompletedAreNotErrors(results[..|results| - 1]);
    }
  }

  // The two evidence tiers of the benchmark.
  predicate TwoTiers(ks: Keys) {
    forall t :: t in ks.tiers ==> t == "A" || t == "B"
  }

  predicate DistinctKeys(ks: Keys) {
    Distinct(ks.families) && Distinct(ks.tiers) && Distinct(ks.actions) && Distinct(ks.tierA) && Distinct(ks.tierB)
  }

  lemma BenchmarkKeysAreSound()
    ensures DistinctKeys(BENCHMARK_KEYS) && TwoTiers(BENCHMARK_KEYS)
  {
    var ks := BENCHMARK_KEYS;
    forall i, j | 0 <= i < j < |ks.families| ensures ks.families[i] != ks.families[j] {
      assert |ks.families[i]| != |ks.families[j]| || ks.families[i][0] != ks.families[j][0]
          || ks.families[i][1] != ks.families[j][1];
    }
    assert ks.tiers[0][0] != ks.tiers[1][0];
    assert ks.actions[0][0] != ks.actions[2][0];
    assert ks.tierA[0][0] != ks.tierA[1][0];
  }

  lemma FallsUnder(r: CaseResult, select: Selector, keys: seq<string>, scope: Selector, name: string,
                   key: Option<string>)
    requires OnlyKey(select, keys, key, r) && KeyInScope(r, keys, key, scope, name)
    ensures FallsOnce(r, select, keys, scope, name)
  {
  }

  lemma EveryResultFalls(ks: Keys, results: seq<CaseResult>)
    requires TwoTiers(ks)
    requires AllRegistered(ks, results) && AllBucketed(ks, results, |results|)
    ensures Partitions(results, ByFamily(), ks.families, Everything(), "")
    ensures Partitions(results, ByTier(), ks.tiers, Everything(), "")
    ensures Partitions(results, TierAByTarget(), ks.tierA, ByTier(), "A")
    ensures Partitions(results, TierBByTarget(), ks.tierB, ByTier(), "B")
    ensures Partitions(results, ByAction(), ks.actions, Completed(), "")
  {
    forall i | 0 <= i < |results|
      ensures FallsOnce(results[i], ByFamily(), ks.families, Everything(), "")
      ensures FallsOnce(results[i], ByTier(), ks.tiers, Everything(), "")
      ensures FallsOnce(results[i], TierAByTarget(), ks.tierA, ByTier(), "A")
      ensures FallsOnce(results[i], TierBByTarget(), ks.tierB, ByTier(), "B")
      ensures FallsOnce(results[i], ByAction(), ks.actions, Completed(), "")
    {
      assert RegisteredAt(ks, results, i) && BucketedAt(ks, results, i);
      ResultFalls(ks, results[i]);
    }
  }

  lemma ResultFalls(ks: Keys, r: CaseResult)
    requires Registered(ks, r) && Bucketed(ks, r) && TwoTiers(ks)
    ensures FallsOnce(r, ByFamily(), ks.families, Everything(), "")
    ensures FallsOnce(r, ByTier(), ks.tiers, Everything(), "")
    ensures FallsOnce(r, TierAByTarget(), ks.tierA, ByTier(), "A")
    ensures FallsOnce(r, TierBByTarget(), ks.tierB, ByTier(), "B")
    ensures FallsOnce(r, ByAction(), ks.actions, Completed(), "")
  {
    FallsUnder(r, ByFamily(), ks.families, Everything(), "", Some(r.family));
    FallsUnder(r, ByTier(), ks.tiers, Everything(), "", Some(r.tier));
    FallsUnder(r, TierAByTarget(), ks.tierA, ByTier(), "A", if r.tier == "A" then Some(r.targetStatus) else None);
    FallsUnder(r, TierBByTarget(), ks.tierB, ByTier(), "B", if r.tier == "A" then None else Some(r.targetStatus));
    FallsUnder(r, ByAction(), ks.actions, Completed(), "",
               if r.observed.None? then None else Some(r.observed.value.finalAction));
  }

  /** Families and tiers each partition the run, field by field. */
  lemma FamiliesAndTiersAddUp(ks: Keys, results: seq<CaseResult>)
    requires DistinctKeys(ks) && TwoTiers(ks)
    requires AllRegistered(ks, results) && AllBucketed(ks, results, |results|)
    ensures SumOver(BucketsOf(results, ByFamily()), ks.families) == Bucket(results, Everything(), "")
    ensures SumOver(BucketsOf(results, ByTier()), ks.tiers) == Bucket(results, Everything(), "")
  {
    EveryResultFalls(ks, results);
    PartitionAddsUp(results, ByFamily(), ks.families, Everything(), "");
    PartitionAddsUp(results, ByTier(), ks.tiers, Everything(), "");
  }

  /** The registered target statuses partition their tier. */
  lemma TargetStatusesAddUp(ks: Keys, results: seq<CaseResult>)
    requires DistinctKeys(ks) && TwoTiers(ks)
    requires AllRegistered(ks, results) && AllBucketed(ks, results, |results|)
    ensures SumOver(BucketsOf(results, TierAByTarget()), ks.tierA) == Bucket(results, ByTier(), "A")
    ensures SumOver(BucketsOf(results, TierBByTarget()), ks.tierB) == Bucket(results, ByTier(), "B")
  {
    EveryResultFalls(ks, results);
    PartitionAddsUp(results, TierAByTarget(), ks.tierA, ByTier(), "A");
    PartitionAddsUp(results, TierBByTarget(), ks.tierB, ByTier(), "B");
  }

  /** The actions partition the completed cases, of which the errors are the rest. */
  lemma ActionsAddUpToCompleted(ks: Keys, results: seq<CaseResult>)
    requires DistinctKeys(ks) && TwoTiers(ks)
    requires AllRegistered(ks, results) && AllBucketed(ks, results, |results|)
    ensures SumOver(BucketsOf(results, ByAction()), ks.actions).total == |results| - |CaseIds(results, Errored())|
            == |Latencies(results)|
  {
    EveryResultFalls(ks, results);
    ListsMatchTally(results);
    CompletedAreNotErrors(results);
    PartitionAddsUp(results, ByAction(), ks.actions, Completed(), "");
  }
}
